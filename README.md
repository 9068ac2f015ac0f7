# Scheduler schedule-line parser, in Dafny

This project models the core of Scheduler, a terminal calendar. Scheduler reads schedule
lines of the form `January 18-21 | 7:00pm-8:30pm | Office hours` and enters them into a map
from date to (start, end) pair to event text. The model covers the following:

- **The two scanners** of `events.py`. `re.Scanner` is modelled as an ordered list of
  hand-written prefix matchers. The first rule that matches wins, an action answering
  `None` drops its text, and the scan stops at the first position no rule matches.
  The actions are `parse_month`, `parse_weekday`, `parse_day` and `parse_time`.
- **The token cursor `Parser`**, with `expect`, `accept`, `confirm` and `check`. It is a
  class whose `pos` advances over the tokens followed by `END`.
- **`TimeParser.time_pairs`**, `DateParser.I`, `D` and `dates`, and `last_day`. Each loop
  is an imperative method proved equal to a grammar function over (tokens, position). The
  properties are proved about those functions.
- **`read_line`**, on a `Schedule` class whose map the method updates.
- **From `windows.py`:** `render_date` with its ordinal suffix, `hour_strings`,
  `position_for_event`, the scroll state of `EventsWindow.handle_keypress`, and the
  arrow-key stepping of `DaysWindow`.
- **From `days.py`:** `Day.__init__` and `Day.__repr__`.

Python's `datetime.date` becomes `Calendar.Date`, and `datetime.time` becomes `Calendar.Time`.
The proleptic Gregorian rules are written out, including `toordinal`, `isoweekday`, the
successor day and the `ValueError`/`OverflowError` ranges. Exceptions become values:
- `ScannerError` becomes `ScanError(input, remainder)`.
- `ParserError` becomes `ParseError(found, allowed)`.
- A `ValueError` from `datetime` becomes `InvalidDate` or `BadTime`.
- `OverflowError` becomes `DateOverflow`.
- The `ValueError` of unpacking `line.split("|")` into three fields becomes `Unpack(fields)`.
- A loop the program never leaves becomes `Diverges`.

`shared.today.year` is a parameter, and `shared.selected` and `shared.schedule` are fields of
the classes that update them.

The modules are as follows:
- `Wrappers`, `Calendar`, `Numerals` and `Tokens` hold the values.
- `Scanner` holds the scanner.
- `Cursor` holds `Parser`.
- `TimeGrammar` and `DateGrammar` hold the two parsers. `DayFilters` holds the filter
  predicates and `DateRange` holds `I`'s date list and `last_day`.
- `Events` holds `read_line`.
- `Windows` and `Days` hold the display logic.

## Model

| member | source | states |
|---|---|---|
| Calendar.DaysInMonth | events.py:260-264 | the length of a month is 28 to 31 days; February has 29 exactly in a leap year |
| Calendar.MakeDate | events.py:191-192 | `datetime.date(y, m, d)` succeeds exactly on a valid date and then holds those fields; otherwise it is the `ValueError` |
| Calendar.MakeTime | events.py:59 | `datetime.time(h, m)` succeeds exactly on a valid time of day; otherwise it is the `ValueError` |
| Calendar.NextDay | events.py:196 | `d + timedelta(days=1)` is a valid date after `d`, with no valid date strictly between them |
| Calendar.PrevDay | windows.py:210 | stepping a day back is undone by stepping a day forward |
| Calendar.OrdinalNext | events.py:196 | the successor day has the next ordinal |
| Calendar.Ordinal | events.py:232 | `toordinal()`, counting 0001-01-01 as day 1; OrdinalOrder, OrdinalNext and AddDays state that it numbers the valid dates in order, one per day |
| Calendar.IsoWeekday | windows.py:19 | `isoweekday()` is 1 to 7; WeekdayNext and NewYear2024Monday state that it advances by one a day and that 2024-01-01 is a Monday |
| Calendar.OrdinalOrder | events.py:194 | the comparison `start <= end` on dates agrees with comparing their ordinals, and equal ordinals mean equal dates |
| Calendar.NotAfter | events.py:194 | `start <= end` on dates: equality or an earlier year, month or day; OrdinalOrder states that it agrees with ordinal order |
| Calendar.WeekdayNext | events.py:232 | `isoweekday()` of the next day is the next weekday, Sunday (7) wrapping to Monday (1) |
| Calendar.AddDays | windows.py:189 | `d + timedelta(days=n)` exists exactly when the target ordinal is within the calendar, and then has ordinal `Ordinal(d) + n` |
| Numerals.IntOf | events.py:67 | `int(s)` succeeds exactly on a non-empty string of digits, and then is the number the digits denote |
| Numerals.IsDecimal | events.py:66-69 | `isdigit()` holds exactly of a non-empty text made only of digits |
| Numerals.DecimalText | windows.py:22 | `str(n)` is a decimal numeral that reads back as `n` and has no leading zero |
| Numerals.Pad2 | windows.py:61 | `%I` pads to exactly two digits that read back as the number |
| Numerals.LeftStripSpec | windows.py:61 | `lstrip('0')` leaves a suffix that does not start with `'0'`, and everything removed was `'0'` |
| Numerals.LeftStrip | windows.py:61 | `lstrip('0')` leaves a suffix of its argument that does not start with `'0'`; LeftStripSpec adds that everything removed was `'0'` |
| Scanner.Lookup | events.py:79-81 | `names_list.index(x)` is defined exactly when `x` is in the list, and then is the first position holding `x` |
| Scanner.LookupAt | events.py:79-81 | `index` finds an entry that no earlier entry equals at its own position |
| Scanner.FirstLiteral | events.py:150-155 | an alternation of names matches the first listed name that the text starts with, and matches nothing exactly when no name is a prefix |
| Scanner.FirstLiteralAt | events.py:150-155 | the name that wins is the first in list order, not the longest |
| Scanner.FirstMatch | events.py:29-35 | the rule that wins is one of the scanner's rules with a non-empty match, and there is no winner exactly when no rule matches |
| Scanner.FirstMatchAt | events.py:29-35 | the first rule in list order that matches wins |
| Scanner.MatchLength | events.py:150-158 | each rule's pattern: a month or weekday match is one of its alternatives, a day or time match exactly starts at a digit, punctuation at `- , : .`, and `\s+` at a space |
| Scanner.DayMatch | events.py:158 | `\d\d?[a-zA-z]*` matches exactly at a digit, takes the one or two leading digits and then the longest run of the letter class after them |
| Scanner.TimeMatch | events.py:129 | the time pattern matches exactly at a digit, takes the hour digits, takes `:dd` whenever it follows them, and holds only time characters after the hour |
| Scanner.MeridiemMatch | events.py:129 | `[paPA]\.?[mM]\.?` takes two to four characters, starting with `p` or `a` and ending with `m` or a dot |
| Scanner.PunctuationMatch | events.py:32 | the punctuation pattern (two dashes, a dash, a comma, a colon or a dot) matches exactly at one of those characters, and takes two characters exactly at `--` |
| Scanner.SpaceRun | events.py:34 | `\s+` takes the whole run of leading whitespace and stops at the first other character |
| Scanner.ParseMonth | events.py:86-89 | `parse_month` answers a token exactly for the names the month pattern lists, a `MONTH` token with a value in 1..12 |
| Scanner.MonthFullReadsBack | events.py:7-10 | every full month name reads as its month number, January 1 to December 12 |
| Scanner.MonthAbbrReadsBack | events.py:11-14 | every abbreviated month name reads as its month number; "May" is found among the full names first, at the same position |
| Scanner.AbbrNotFull | events.py:86-89 | no abbreviation other than "May" is a full month name, so the full names are searched in vain |
| Scanner.AbbrDistinct | events.py:11-14 | no abbreviation repeats an earlier one |
| Scanner.JanuaryIsOne | events.py:7-10 | "January" is month 1 |
| Scanner.ParseWeekday | events.py:75-81 | `parse_weekday` answers a token exactly for the names the weekday pattern lists, a `WEEKDAY` token with a value in 1..7 |
| Scanner.WeekdayFullReadsBack | events.py:17-19 | every full weekday name reads as its position, Sunday 1 to Friday 6 |
| Scanner.WeekdayAbbrReadsBack | events.py:20-23 | every three-letter weekday name reads as its position, Sun 1 to Sat 7 |
| Scanner.WeekdayLetterReadsBack | events.py:24-27 | every one-letter weekday name U, M, T, W, R, F, S reads as its position, 1 to 7 |
| Scanner.MondayAndFriday | events.py:24-27 | "M" is weekday 2 and "F" is weekday 6, the ends of `M-F` |
| Scanner.TuesIsThree | events.py:76 | "Tues" is weekday 3 |
| Scanner.ThursIsFive | events.py:77 | "Thurs" is weekday 5 |
| Scanner.SundayIsOne | events.py:17-19 | "Sunday" is weekday 1 |
| Scanner.UIsSunday | events.py:24-27 | the one-letter "U" is Sunday, weekday 1 |
| Scanner.ParseDay | events.py:64-70 | `parse_day` answers a `DAY` token exactly when the text is all digits or all digits but its last two characters, and `None` otherwise |
| Scanner.ParseDayDigits | events.py:66-67 | text made of digits only is the day those digits denote |
| Scanner.ParseDaySuffix | events.py:69-70 | digits followed by exactly two characters, not both digits, are the day the digits denote |
| Scanner.ParseDayDropped | events.py:64-70 | any other text gives `None`, which the scanner drops |
| Scanner.EighthIsEight | events.py:69-70 | "8th" is day 8: the two characters after the digits are cut off |
| Scanner.OneLetterSuffixDropped | events.py:64-70 | "1x" gives `None`, so the scanner drops the text without a token |
| Scanner.ParseTime | events.py:47-59 | a time text that parses becomes a `TIME` token holding a valid time of day; the reading rules are the lemmas below |
| Scanner.ClockFields | events.py:48-54 | without a colon the text gives fields exactly when it starts with a digit, and then the minutes are 0; the full reading rules are ColonFields and HourFields |
| Scanner.ParseTimeColon | events.py:48-59 | with a colon, the hour is the number before it and the minutes the two digits after it; 12 is added when the text holds 'p' or 'P' and the hour is below 12; an hour of 24 or more or minutes of 60 or more raise |
| Scanner.ColonFields | events.py:48-51 | from digits, a colon and two more digits, `split(":")` ends the hour at the colon and `[:2]` takes the two minute digits, whatever follows |
| Scanner.ReadFields | events.py:56-59 | once the fields are read, 12 is added for a 'p' or 'P' before noon and `datetime.time` decides whether the time exists |
| Scanner.PmHour | events.py:56-57 | 12 is added to an hour below 12 when the text holds a `p` or `P`; ParseTimeColon, ParseTimeHour and PmTextReadsBack state it for all inputs |
| Scanner.ParseTimeHour | events.py:52-59 | without a colon, the hour is the leading number and the minutes are 0, with the same pm rule |
| Scanner.HourFields | events.py:52-54 | without a colon, `(\d*)` takes exactly the leading digits and the minutes are 0 |
| Scanner.DigitRun | events.py:53 | `(\d*)` takes the whole run of leading digits and stops at the first non-digit |
| Scanner.TimeTextReadsBack | events.py:47-59 | a valid time written as its hour, a colon and two-digit minutes reads back as itself |
| Scanner.PmTextReadsBack | events.py:56-59 | "h:MMpm" on the 12-hour clock reads as h + 12, except that "12:MMpm" stays at 12 |
| Scanner.SevenPm | events.py:56-57 | "7:00pm" is 19:00: a 'p' adds 12 to an hour below 12 |
| Scanner.NineOClock | events.py:52-54 | "9" is 9:00: without a colon the minutes are 0 |
| Scanner.TwelveAm | events.py:56-57 | "12am" is 12:00: 12 is never moved |
| Scanner.NinePm | events.py:47-59 | the time action reads "9:00pm" as 21:00 |
| Scanner.NineThirty | events.py:47-59 | the time action reads "9:30" as 9:30: a marker belongs to its own token only |
| Scanner.NinePmLength | events.py:129 | in "9:00pm-9:30" the time pattern takes the six characters "9:00pm" |
| Scanner.EveningStart | events.py:129-132 | in "9:00pm-9:30" the time rule wins at the start and takes "9:00pm" |
| Scanner.EveningDash | events.py:32 | the dash after "9:00pm" is taken by the punctuation rule and becomes a `-` token |
| Scanner.EveningLastMatch | events.py:129-132 | after the dash, the time rule takes "9:30", the rest of the text |
| Scanner.Act | events.py:30-35 | an action emits only well-shaped tokens of its rule's kinds, and only the time action can raise |
| Scanner.ScanFrom | events.py:37-42 | a scan that stops early reports the input and a non-empty remainder no longer than the text left to scan; the tokens of a complete scan are well-shaped tokens of the rules' kinds |
| Scanner.Scan | events.py:37-42 | `scan` from the start of the text: a failure reports the whole input and a non-empty remainder that is a suffix of it; a complete scan yields only well-shaped tokens, none of them `END` |
| Scanner.NoEndKind | events.py:95 | no scanner rule emits the `END` token that the parser appends |
| Scanner.NamesCapitalised | events.py:7-27 | every month and weekday name starts with a capital letter |
| Scanner.NoNameAt | events.py:150-156 | where the text does not start with a capital, neither name rule matches |
| Scanner.OnlySpaceMatches | events.py:34 | at a space only the whitespace rule matches |
| Scanner.SpacesDropped | events.py:34 | at a space the whitespace rule wins in both scanners and its action yields no token |
| Scanner.SeparatorDropped | events.py:34 | the separators `\x1c` to `\x1f` are whitespace to `\s` and are dropped like spaces |
| Scanner.PunctuationEmitted | events.py:32 | `--`, `-`, `,`, `:` and `.` each yield a token of their own kind with an empty value, `--` before `-` |
| Scanner.NoRuleAt | events.py:29-35 | no rule of either scanner matches at a character that starts no token |
| Scanner.ScanStops | events.py:38-40 | where no rule matches, the scan fails with the rest of the input as the remainder |
| Scanner.StrayCharacter | events.py:37-40 | a character that starts no token, such as a lower-case letter, makes the scan fail there with the rest of the input as the remainder |
| Scanner.SaturdayMissesMonths | events.py:150 | no month name matches text starting with "Sa" |
| Scanner.SaturdayMatchesSat | events.py:151-152 | the weekday pattern matches "Sat" in "Saturday", since "Saturday" is not among the full names |
| Scanner.SatIsSaturday | events.py:20-23 | "Sat" is weekday 7 |
| Scanner.SaturdayWins | events.py:154-159 | in "Saturday" the weekday rule wins and takes three characters |
| Scanner.SaturdayStops | events.py:37-40 | after "Sat", the scan of "Saturday" fails with remainder "urday" |
| Scanner.SaturdaySteps | events.py:154-159 | the three steps of scanning "Saturday": the weekday rule wins, emits weekday 7, then the scan fails |
| Scanner.SaturdayFails | events.py:17-19 | the full name "Saturday" does not scan: `ScannerError` with remainder "urday" |
| Cursor.Advance | events.py:111-114 | `current` moves to the next token, except that once `END` is current it stays current |
| Cursor.PrependTwice | events.py:135-142 | putting two runs of read items in front of a parse equals putting their concatenation in front |
| Cursor.Parser.constructor | events.py:94-96 | the stream is the tokens followed by `END`, and the first is current |
| Cursor.Parser.ExpectWith | events.py:107-122 | `expect`: on an allowed kind it advances and answers by its flags; otherwise it stays put and raises, or answers False / (False, None) |
| Cursor.Parser.Expect | events.py:107-122 | `expect(kinds)`: the value after advancing, or `ParserError((current, kinds))` without moving |
| Cursor.Parser.Accept | events.py:98-99 | `accept`: (True, value) after advancing, or (False, None) in place |
| Cursor.Parser.Confirm | events.py:101-102 | `confirm`: True after advancing; on a mismatch it raises, because `necessary` stays true |
| Cursor.Parser.Check | events.py:104-105 | `check`: True after advancing, or False in place |
| TimeGrammar.TimePairsFrom | events.py:135-142 | a successful `time_pairs` reads at least one pair and ends inside the stream, past where it started |
| TimeGrammar.PairRead | events.py:135-142 | after a pair, a comma means more pairs follow, and anything else ends the list |
| TimeGrammar.PairsDone | events.py:142 | the loop stops after a pair without a comma, having read every pair so far |
| TimeGrammar.PairsMore | events.py:142 | after a pair and a comma the loop goes on from the next pair |
| TimeGrammar.TimePairsShape | events.py:135-142 | a successful parse has the shape TIME dash TIME (`,` TIME dash TIME)*, in source order, and all its times are valid |
| TimeGrammar.ShapeCons | events.py:135-142 | a pair and a comma in front of a well-shaped parse make a longer well-shaped parse |
| TimeGrammar.ShapeTail | events.py:135-142 | behind the first pair of a longer parse come a comma and a well-shaped parse of the rest |
| TimeGrammar.ShapeParses | events.py:135-142 | tokens of that shape parse to exactly those pairs: the converse of `TimePairsShape` |
| TimeGrammar.TimePairsFailure | events.py:137-139 | a failed parse is a `ParserError` naming a token of the stream at or after the start |
| TimeGrammar.TimePairsLocal | events.py:142 | the tokens after the last pair are never inspected: changing them does not change the parse |
| TimeGrammar.EmptyTimes | events.py:137 | an empty time column is a `ParserError` at `END` expecting `TIME` |
| TimeGrammar.MissingDash | events.py:138 | "7:00pm 8:30pm" is a `ParserError` expecting a dash: the dash is required |
| TimeGrammar.TwoPairs | events.py:135-142 | "7:00pm-8:30pm, 9:00pm-10:00pm" gives two pairs in the order written |
| TimeGrammar.EveningPair | events.py:135-140 | the tokens of "9:00pm-9:30" form the one pair (21:00, 9:30) |
| TimeGrammar.TimeParser.constructor | events.py:126-133 | the cursor starts at the first of the time tokens followed by `END` |
| TimeGrammar.TimeParser.ReadPair | events.py:137-139 | one TIME dash TIME group: the pair three tokens on, or exactly the failure of the whole parse |
| TimeGrammar.TimeParser.TimePairs | events.py:135-142 | the loop yields what `TimePairsFrom` specifies and leaves the cursor where it says |
| DateRange.DatesBetween | events.py:190-198 | every listed date is valid and lies between the start and the end |
| DateRange.DatesBetweenStep | events.py:194-196 | one loop turn: a non-empty interval is its start, then the interval from the next day |
| DateRange.DatesBetweenEmpty | events.py:194 | an interval whose start is after its end is empty |
| DateRange.DatesBetweenShift | events.py:194-196 | one loop turn moves the current day from the rest of the interval to the result |
| DateRange.OverflowAtEnd | events.py:196 | the loop reaches 9999-12-31 only in an interval that ends there |
| DateRange.DatesBetweenOrdinals | events.py:190-198 | the list has one entry per day from start to end, entry `i` being `i` days after the start |
| DateRange.DatesBetweenContents | events.py:190-198 | a date is listed exactly when it is valid and between the start and the end, and the list is strictly ascending |
| DateRange.LastDay | events.py:256-264 | `last_day` answers the month's length: a valid day of the month, with no valid later day |
| DayFilters.TokenWeekday | events.py:232 | a date's weekday in the scanner's numbering: Sunday 1, then Monday 2 up to Saturday 7 |
| DayFilters.Forward | events.py:223-226 | the number of forward steps round the week from one day number to another |
| DayFilters.WalkAdvances | events.py:223-226 | each turn of the weekday walk brings it one step closer to its end |
| DayFilters.WalkStep | events.py:223-227 | the set built by the walk is its start plus the set built from the next day |
| DayFilters.WalkResidues | events.py:219-227 | from a start in 0..6 the walk collects exactly the residues on the way round to its end |
| DayFilters.Walk | events.py:223-227 | the walk from `s` round to `e` collects both its ends; WalkResidues states that it collects exactly the residues on the way |
| DayFilters.ResidueOfWeekday | events.py:232 | the residue the filter tests is the scanner's weekday number, with Saturday's 7 read as 0 |
| DayFilters.WeekdayRangeHolds | events.py:219-232 | a weekday filter holds of a date exactly when its residue is in the walked set |
| DayFilters.Holds | events.py:211-235 | each filter's test on a date (day equality, day range, weekday set by residue); its meaning for weekday sets is stated by ResidueOfWeekday and WeekdayRangeHolds |
| DayFilters.MondayToFriday | events.py:219-232 | `M-F` keeps exactly Monday to Friday |
| DayFilters.FridayToMonday | events.py:219-232 | `F-M` keeps exactly Friday, Saturday, Sunday and Monday |
| DayFilters.LoneSaturday | events.py:229-232 | a lone `S` or `Sat` keeps no date at all |
| DayFilters.SaturdayToMonday | events.py:219-232 | `Sat-M` keeps Sunday and Monday but not Saturday |
| DateGrammar.SpanAt | events.py:168-188 | a span that reads has both months in 1..12 and ends inside the stream, past where it started; each form is a lemma below |
| DateGrammar.SpanNeedsMonth | events.py:169 | an interval that does not start with a month is a `ParserError` expecting `MONTH` |
| DateGrammar.SpanWholeMonth | events.py:180-188 | a month followed by neither a day nor a dash is the whole month, from the 1st to its last day |
| DateGrammar.SpanMonthRange | events.py:180-188 | `MONTH dash MONTH` runs from the 1st of the first month to the last day of the second |
| DateGrammar.SpanMonthDashNeedsMonth | events.py:183-184 | a dash after a bare month followed by anything but a month is a `ParserError` expecting `MONTH` |
| DateGrammar.SpanOneDay | events.py:177-178 | `MONTH DAY` with no dash after it is that one day |
| DateGrammar.SpanDayRange | events.py:172-176 | `MONTH DAY dash DAY` runs from the first day to the second within the month |
| DateGrammar.SpanAcrossMonths | events.py:172-176 | `MONTH DAY dash MONTH DAY` runs from a day of one month to a day of the other |
| DateGrammar.SpanNeedsEndDay | events.py:173-176 | after `MONTH DAY dash` and an optional month, anything but a day is a `ParserError` expecting `DAY` |
| DateGrammar.IntervalAt | events.py:168-198 | an interval that reads lists only valid dates of the given year |
| DateGrammar.IntervalContents | events.py:168-198 | an interval's dates are exactly the dates from its span's start to its end, in ascending order |
| DateGrammar.IntervalFromSpan | events.py:190-198 | when both ends of the span are dates, the interval is the list of dates between them |
| DateGrammar.IntervalAcrossMonths | events.py:172-198 | `MONTH DAY dash MONTH DAY` lists exactly the valid dates from the first day to the second, across months |
| DateGrammar.DayFilterAt | events.py:204-235 | `D` that reads nothing is the keep-everything filter |
| DateGrammar.ClauseFilters | events.py:242-244 | the filter loop reads at least one filter and ends inside the stream |
| DateGrammar.Select | events.py:246-248 | only interval dates that some filter keeps are yielded, and no more than the interval holds |
| DateGrammar.SelectKeeps | events.py:246-248 | every interval date that some filter keeps is yielded |
| DateGrammar.SelectAscending | events.py:246-248 | the yielded dates keep the interval's ascending order, so each appears once |
| DateGrammar.AlwaysKeeps | events.py:235 | the keep-everything filter holds of every date |
| DateGrammar.SelectAll | events.py:246-248 | a clause whose only filter keeps everything yields its whole interval |
| DateGrammar.DatesFrom | events.py:237-250 | `dates` ends at `END` and yields only valid dates of the given year |
| DateGrammar.SingleClause | events.py:237-250 | a clause that runs to `END` yields the interval dates its filters keep |
| DateGrammar.NextClause | events.py:250 | a clause that stops at a comma is followed by the dates of the clauses after it, in order |
| DateGrammar.SingleClauseMembers | events.py:237-250 | a single clause yields exactly the dates between its span's ends that a filter keeps |
| DateGrammar.DayRangeClause | events.py:168-178 | `January 18-21` reads as the span January 18 to January 21, with no filters |
| DateGrammar.DayRangeExample | events.py:168-198 | `January 18-21` yields the four days, in order |
| DateGrammar.MonthRangeClause | events.py:180-188 | `August -- September` reads as August 1 to September 30 |
| DateGrammar.MonthRangeExample | events.py:180-198 | `August -- September` yields exactly the days of both months |
| DateGrammar.WeekdaysClause | events.py:216-227 | `January M-F` reads as the whole of January with the filter Monday to Friday |
| DateGrammar.WeekdaysExample | events.py:216-248 | `January M-F` yields exactly the weekdays of January |
| DateGrammar.TrailingCommaClause | events.py:242-244 | in `January 5,` the comma ends the clause |
| DateGrammar.TrailingCommaExample | events.py:237-250 | `January 5,` is accepted and yields January 5 alone |
| DateGrammar.RepeatedClauseExample | events.py:237-250 | `January 5, January 5` yields January 5 twice: clauses concatenate without deduplication |
| DateGrammar.MissingCommaExample | events.py:242-244 | `January 5 February 3` never returns, because `D` reads nothing in front of `February` again and again |
| DateGrammar.ClauseNeedsMonthExample | events.py:239 | `January 5, 7` is a `ParserError`: a clause after a comma must start with a month |
| DateGrammar.SaturdayEndExample | events.py:223-226 | `January M-Sat` never returns, because the weekday walk never reaches 7 |
| DateGrammar.NoSuchDayExample | events.py:191 | `February 30` is the `ValueError` of an invalid date |
| DateGrammar.DateParser.constructor | events.py:149-162 | the cursor starts at the first of the date tokens followed by `END`, for the given year |
| DateGrammar.DateParser.ReadSpan | events.py:168-188 | reading an interval's months and days agrees with `SpanAt` |
| DateGrammar.DateParser.DaysFrom | events.py:190-198 | the loop lists the dates between the ends, or overflows exactly when a non-empty interval ends on 9999-12-31 |
| DateGrammar.DateParser.Interval | events.py:168-198 | `I` agrees with `IntervalAt` |
| DateGrammar.DateParser.WalkWeekdays | events.py:219-227 | the loop collects exactly the walked set |
| DateGrammar.DateParser.DayFilter | events.py:204-235 | `D` agrees with `DayFilterAt` |
| DateGrammar.DateParser.Filters | events.py:242-244 | the filter loop agrees with `ClauseFilters` |
| DateGrammar.DateParser.Choose | events.py:246-248 | the yielding loop yields `Select` of the interval |
| DateGrammar.DateParser.Dates | events.py:237-250 | `dates` agrees with `DatesFrom` |
| Events.SplitOn | events.py:271 | splitting the line at the bar gives at least one piece, and no piece holds the separator |
| Events.SplitJoin | events.py:271 | joining the pieces of a split with the separator gives back the line |
| Events.ScannedStream | events.py:95 | a complete scan followed by `END` is a token stream the parser accepts |
| Events.ParseLine | events.py:267-278 | a line that is entered has three fields; its event is the third field unstripped; it has at least one pair; and its dates are valid dates of the year |
| Events.ParseColumns | events.py:273-276 | a parse keeps the event text and yields at least one pair and only valid dates of the year |
| Events.PutContents | events.py:277-278 | one date's writes map every pair to the event and keep the date's other pairs and every other date |
| Events.Row | events.py:278 | `schedule[d]` of the `defaultdict(dict)` that shared.py:10 creates: the stored row, or an empty one for a date not yet seen; PutContents states what the writes through it leave |
| Events.StoreContents | events.py:276-278 | after a line, every (date, pair) of the product maps to the event, and every other entry is as it was |
| Events.Put | events.py:277-278 | one date's writes of every pair; its contents are stated by PutContents |
| Events.Store | events.py:276-278 | the writes of one line over every date and pair; its contents are stated by StoreContents |
| Events.LaterLineWins | events.py:278 | entering the same dates and pairs again with another text leaves what entering only the later text does |
| Events.Schedule.ReadLine | events.py:267-291 | on success the schedule gains the line's writes; on any failure it is unchanged and the failure is returned |
| Events.Schedule.Parse | events.py:273-276 | parsing the scanned columns agrees with `ParseColumns` |
| Events.Schedule.Enter | events.py:276-278 | the product loop makes exactly the writes of `Store` |
| Events.Schedule.EnterDate | events.py:277-278 | one date's loop makes exactly the writes of `Put` |
| Days.Suffix | days.py:18-23 | the suffix is "st", "nd" or "rd" exactly when the last digit is 1, 2 or 3 and the day is not 11, 12 or 13; otherwise "th" |
| Days.SuffixIsEnglish | days.py:18-23 | for days 1 to 31 the suffix is the English ordinal ending |
| Days.NewDay | days.py:5-15 | a new `Day` copies the date's year, month and day and has no events |
| Days.Repr | days.py:17-28 | `repr` starts with the full month name and ends with the day's suffix |
| Days.NewDayText | days.py:17-28 | the text of a new day is the month name, a space, the day number and its English suffix |
| Days.OrdinalReadsBack | days.py:17-28 | a day number with its suffix reads back through `parse_day` as that number |
| Days.ReprReadsBack | days.py:25-28 | the month name and the day text of a date's `repr` read back through `parse_month` and `parse_day` as the date's month and day |
| Windows.WeekdayIndex | windows.py:19 | the index into Monday-first names is `isoweekday() - 1` |
| Windows.RenderDateParts | windows.py:10-22 | `render_date` is the true weekday's name, a comma and a space, then the `Day` text of the date |
| Windows.RenderDate | windows.py:10-22 | the rendered date starts with the date's weekday name and ends with the day's ordinal suffix; RenderDateParts states the whole text |
| Windows.RenderNextDay | windows.py:19 | the next day's heading names the next weekday, Sunday wrapping to Monday |
| Windows.NewYear2024 | windows.py:10-22 | 2024-01-01 renders as "Monday, January 1st" |
| Windows.Hour12 | windows.py:61 | `%I` is the hour on a 12-hour clock, 0 and 12 being 12 |
| Windows.HourLabelText | windows.py:61 | an hour label is the 12-hour number without a leading zero; midnight and noon are "12" |
| Windows.HourLabel | windows.py:61 | an hour label has at most two characters and does not start with `'0'`; HourLabelText states its value |
| Windows.EventsWindow.constructor | windows.py:45-46 | the view starts at 9 and ends at 23 |
| Windows.EventsWindow.HourStrings | windows.py:59-62 | there is one label per hour from the first to the last hour shown |
| Windows.HourStringsText | windows.py:59-62 | label `i` is the unpadded 12-hour number of the `i`-th hour shown |
| Windows.EventsWindow.PositionForEvent | windows.py:68-72 | the line is the number of whole 30-minute steps from the first hour shown to the start, plus the offset (floor division) |
| Windows.HourRowsAlign | windows.py:68-72 | an event on the hour lands on the same line as that hour's label, two lines per hour |
| Windows.PositionsInOrder | windows.py:68-72 | events are placed in the order of their start times |
| Windows.EarlyEventsAbove | windows.py:68-72 | an event before the first hour shown lands above the first event line |
| Windows.EventsWindow.HandleKeypress | windows.py:130-139 | 'w' scrolls up unless the view starts at 0 and 's' scrolls down unless it starts at 23; other keys change nothing, and the last hour never changes |
| Windows.KeyStep | windows.py:207-211 | Up moves -7 days, Down +7, Left -1 and Right +1; any other key moves nothing |
| Windows.DaysWindow.ChangeDay | windows.py:188-189 | the selection moves by `amount` days when the result is a date, and otherwise stays |
| Windows.DaysWindow.HandleKeypress | windows.py:204-214 | an arrow key moves the selection by its step; any other key leaves it unchanged |
| Windows.MoveBack | windows.py:208-211 | moving back by the same number of days undoes a move |
| Windows.WeeksKeepWeekday | windows.py:208-209 | Up and Down keep the weekday |
| Windows.RightIsNextDay | windows.py:211 | Right selects the next day |

## Left out

- `read_file` is file I/O. Blank-line skipping and `strip` happen before `read_line` and are not part of this model.
- The error printing and `exit(0)` in `read_line` are I/O. `Schedule.ReadLine` returns the error value instead.
- A `ValueError` from `datetime.date`/`datetime.time`, an `OverflowError`, and the `ValueError` of unpacking a line that does not have exactly three `|`-separated fields (events.py:271, outside the `try`) escape `read_line` uncaught in the program. The model returns them as `LineError` values, and the schedule is unchanged as it would be.
- A line that never returns (a weekday range ending on Saturday, or a filter loop stuck in front of a token `D` cannot read) is modelled as the failure `Diverges`. The hang itself is not modelled.
- `itertools.product` reads both generators to the end before the first write, so a failure in either column means no write. The model parses both columns first, which is the same; laziness itself is not modelled.
- The general `re` engine is not modelled. Only the patterns the program uses are hand-written as prefix matchers.
- `\d`, `isdigit` and `int` are taken on ASCII digits; Unicode digits are out of scope. `\s` is the full set of characters `str.isspace` accepts. `int()` also accepts signs, underscores and surrounding spaces, which the scanner patterns never hand it.
- Scanner: whole-line scans are stated rule by rule, giving which rule wins at each position and what its action yields. For "9:00pm-9:30" this is not one equation over the whole scan, to keep the proofs small.
- `shared.today.year` is a parameter; `shared.selected` is the `DaysWindow` field it stands for.
- Windows.DaysWindow.ChangeDay: the `OverflowError` of stepping outside 0001-01-01 .. 9999-12-31 becomes `ok == false` with the selection unchanged.
- `calendar.month_name` is taken in the C locale, where it lists the same English names as the scanner's `months_full`; other locales are not modelled.
- Days.Repr: requires a month in 1..12, since `calendar.month_name` indexes a 13-entry table whose entry 0 is empty.
- `EventsWindow.draw`, `get_event_text`, `HeaderWindow`, `display_options_for_day`, `draw_centered`, `Window.__getattr__` and all curses calls are drawing. The bar length uses floating point and `round`.
- `main.py` is the curses event loop, and `shared.py` holds the globals. Neither is part of this model.
- Where the program departs from the schedule format as described for its users, the model follows the program:
  - the dash between two times is required, since `confirm` raises;
  - filters inside a clause are written side by side without commas, and a comma starts a new clause;
  - a trailing comma after a clause is accepted.
