/** The lexical scanner: `re.Scanner` as an ordered list of prefix matchers, one per
    rule, where at each position the FIRST rule in list order that matches wins and
    consumes its own greedy match; the rule's action turns the matched text into a token,
    drops it, or raises. */
module Scanner {
  import opened Wrappers
  import opened Calendar
  import opened Numerals
  import opened Tokens

  const MonthsFull: seq<string> := ["January", "February", "March", "April", "May", "June", "July",
                                     "August", "September", "October", "November", "December"]
  const MonthsAbbr: seq<string> := ["Jan", "Feb", "Mar", "Apr", "May", "Jun",
                                     "Jul", "Aug", "Sep", "Oct", "Nov", "Dec"]

  /** Full weekday names as the program lists them: "Saturday" is not among them. */
  const WeekdaysFull: seq<string> := ["Sunday", "Monday", "Tuesday", "Wednesday", "Thursday", "Friday"]
  const WeekdaysThree: seq<string> := ["Sun", "Mon", "Tue", "Wed", "Thu", "Fri", "Sat"]
  const WeekdaysOne: seq<string> := ["U", "M", "T", "W", "R", "F", "S"]

  /** The alternatives of the month pattern, in the order the pattern lists them. */
  const MonthNames: seq<string> := MonthsFull + MonthsAbbr
  /** The alternatives of the weekday pattern, in the order the pattern lists them. */
  const WeekdayNames: seq<string> := WeekdaysFull + ["Tues", "Thurs"] + WeekdaysThree + WeekdaysOne

  datatype Rule = MonthName | WeekdayName | DayNumber | TimeOfDay | Punctuation | Whitespace

  /** The date scanner's rules: names, day numbers, then the shared punctuation and spaces. */
  const DateRules: seq<Rule> := [MonthName, WeekdayName, DayNumber, Punctuation, Whitespace]
  /** The time scanner's rules. */
  const TimeRules: seq<Rule> := [TimeOfDay, Punctuation, Whitespace]

  /** `\s` on a `str` pattern: the characters `str.isspace` accepts. Besides the ASCII
      space and `\t` to `\r`, these are the separators `\x1c` to `\x1f`, the next-line
      and no-break spaces, and the Unicode spaces and line and paragraph separators. */
  predicate IsSpace(c: char) {
    '\t' <= c <= '\r' || '\U{1C}' <= c <= ' ' || c == '\U{85}' || c == '\U{A0}' || c == '\U{1680}'
    || '\U{2000}' <= c <= '\U{200A}' || c == '\U{2028}' || c == '\U{2029}' || c == '\U{202F}'
    || c == '\U{205F}' || c == '\U{3000}'
  }

  /** The class `[a-zA-z]`: its second range runs from 'A' to 'z', so it also takes [ \ ] ^ _ and `. */
  predicate InLetterClass(c: char) {
    'A' <= c <= 'z'
  }

  function SpaceRun(s: string): (n: nat)
    ensures n <= |s|
    ensures forall i :: 0 <= i < n ==> IsSpace(s[i])
    ensures n < |s| ==> !IsSpace(s[n])
  {
    if s != [] && IsSpace(s[0]) then 1 + SpaceRun(s[1..]) else 0
  }

  function LetterRun(s: string): (n: nat)
    ensures n <= |s|
    ensures forall i :: 0 <= i < n ==> InLetterClass(s[i])
    ensures n < |s| ==> !InLetterClass(s[n])
  {
    if s != [] && InLetterClass(s[0]) then 1 + LetterRun(s[1..]) else 0
  }

  /** Length of the first listed alternative that `s` starts with, 0 when none does. */
  function FirstLiteral(alts: seq<string>, s: string): (n: nat)
    requires forall i :: 0 <= i < |alts| ==> alts[i] != []
    ensures n <= |s|
    ensures n > 0 ==> s[..n] in alts
    ensures n == 0 <==> forall i :: 0 <= i < |alts| ==> !(alts[i] <= s)
  {
    if alts == [] then 0
    else if alts[0] <= s then assert s[..|alts[0]|] == alts[0]; |alts[0]|
    else FirstLiteral(alts[1..], s)
  }

  /** The alternative that wins is the first one in list order that `s` starts with. */
  lemma {:induction false} FirstLiteralAt(alts: seq<string>, s: string, k: nat)
    requires forall i :: 0 <= i < |alts| ==> alts[i] != []
    requires k < |alts| && alts[k] <= s
    requires forall j :: 0 <= j < k ==> !(alts[j] <= s)
    ensures FirstLiteral(alts, s) == |alts[k]|
  {
    if k > 0 {
      FirstLiteralAt(alts[1..], s, k - 1);
    }
  }

  /** Alternatives listed as two tables are tried table by table. */
  lemma {:induction false} FirstLiteralAppend(a: seq<string>, b: seq<string>, s: string)
    requires forall i :: 0 <= i < |a| ==> a[i] != []
    requires forall i :: 0 <= i < |b| ==> b[i] != []
    ensures FirstLiteral(a + b, s) == if FirstLiteral(a, s) > 0 then FirstLiteral(a, s) else FirstLiteral(b, s)
  {
    if a != [] {
      assert (a + b)[1..] == a[1..] + b;
      FirstLiteralAppend(a[1..], b, s);
    } else {
      assert a + b == b;
    }
  }

  /** `\d\d?`, greedy: 0, 1 or 2 leading digits. */
  function TwoDigits(s: string): (n: nat)
    ensures n <= 2 && n <= |s|
    ensures forall i :: 0 <= i < n ==> IsDigit(s[i])
    ensures n == 0 <==> s == [] || !IsDigit(s[0])
  {
    if s != [] && IsDigit(s[0]) then (if |s| >= 2 && IsDigit(s[1]) then 2 else 1) else 0
  }

  /** `\d\d?[a-zA-z]*`. */
  function DayMatch(s: string): (n: nat)
    ensures n <= |s|
    ensures n > 0 <==> s != [] && IsDigit(s[0])
    ensures n > 0 ==> TwoDigits(s) <= n && forall i :: TwoDigits(s) <= i < n ==> InLetterClass(s[i])
    ensures 0 < n < |s| ==> !InLetterClass(s[n])
  {
    var k := TwoDigits(s);
    if k == 0 then 0 else k + LetterRun(s[k..])
  }

  /** `[paPA]\.?[mM]\.?`. */
  function MeridiemMatch(s: string): (n: nat)
    ensures n <= |s|
    ensures n == 0 || 2 <= n <= 4
    ensures n > 0 ==> s[0] == 'p' || s[0] == 'a' || s[0] == 'P' || s[0] == 'A'
    ensures n > 0 ==> s[n - 1] == 'm' || s[n - 1] == 'M' || s[n - 1] == '.'
    ensures forall i :: 0 <= i < n ==> TimeChar(s[i])
  {
    if s != [] && (s[0] == 'p' || s[0] == 'a' || s[0] == 'P' || s[0] == 'A') then
      var k := if |s| >= 2 && s[1] == '.' then 2 else 1;
      if |s| > k && (s[k] == 'm' || s[k] == 'M') then (if |s| > k + 1 && s[k + 1] == '.' then k + 2 else k + 1)
      else 0
    else 0
  }

  /** `\d?\d(:\d\d\s*)?\s*([paPA]\.?[mM]\.?)?`. */
  function TimeMatch(s: string): (n: nat)
    ensures n <= |s|
    ensures n > 0 <==> s != [] && IsDigit(s[0])
    ensures n > 0 ==> TwoDigits(s) <= n
    ensures (n > 0 && |s| >= TwoDigits(s) + 3 && s[TwoDigits(s)] == ':' && IsDigit(s[TwoDigits(s) + 1])
             && IsDigit(s[TwoDigits(s) + 2])) ==> n >= TwoDigits(s) + 3
    ensures forall i :: TwoDigits(s) <= i < n ==> TimeChar(s[i])
  {
    var a := TwoDigits(s);
    if a == 0 then 0
    else
      var b := if |s| >= a + 3 && s[a] == ':' && IsDigit(s[a + 1]) && IsDigit(s[a + 2])
               then a + 3 + SpaceRun(s[a + 3..]) else a;
      SpacesAt(s, if b > a then a + 3 else a);
      var c := b + SpaceRun(s[b..]);
      SpacesAt(s, b);
      var m := MeridiemMatch(s[c..]);
      MeridiemAt(s, c);
      c + m
  }

  /** The run of spaces at position `k` is made of time characters. */
  lemma SpacesAt(s: string, k: nat)
    requires k <= |s|
    ensures forall i :: k <= i < k + SpaceRun(s[k..]) ==> TimeChar(s[i])
  {
    forall i | k <= i < k + SpaceRun(s[k..]) ensures TimeChar(s[i]) {
      assert s[i] == s[k..][i - k];
    }
  }

  /** The meridiem matched at position `k` is made of time characters. */
  lemma MeridiemAt(s: string, k: nat)
    requires k <= |s|
    ensures forall i :: k <= i < k + MeridiemMatch(s[k..]) ==> TimeChar(s[i])
  {
    forall i | k <= i < k + MeridiemMatch(s[k..]) ensures TimeChar(s[i]) {
      assert s[i] == s[k..][i - k];
    }
  }

  /** The characters a time match may hold after its hour digits. */
  predicate TimeChar(c: char) {
    c == ':' || IsDigit(c) || IsSpace(c) || c == '.' || c == 'p' || c == 'a' || c == 'P' || c == 'A'
    || c == 'm' || c == 'M'
  }

  /** `--|-|,|:|\.`. */
  function PunctuationMatch(s: string): (n: nat)
    ensures n <= |s| && n <= 2
    ensures n > 0 <==> s != [] && (s[0] == '-' || s[0] == ',' || s[0] == ':' || s[0] == '.')
    ensures n == 2 <==> |s| >= 2 && s[0] == '-' && s[1] == '-'
  {
    if |s| >= 2 && s[0] == '-' && s[1] == '-' then 2
    else if s != [] && (s[0] == '-' || s[0] == ',' || s[0] == ':' || s[0] == '.') then 1
    else 0
  }

  /** How much of `s` a rule's pattern matches at its start; 0 when it does not match. */
  function MatchLength(rule: Rule, s: string): (n: nat)
    ensures n <= |s|
    ensures n > 0 && rule == MonthName ==> s[..n] in MonthNames
    ensures n > 0 && rule == WeekdayName ==> s[..n] in WeekdayNames
    ensures rule in {DayNumber, TimeOfDay} ==> (n > 0 <==> s != [] && IsDigit(s[0]))
    ensures rule == Punctuation ==> (n > 0 <==> s != [] && (s[0] == '-' || s[0] == ',' || s[0] == ':' || s[0] == '.'))
    ensures rule == Whitespace ==> (n > 0 <==> s != [] && IsSpace(s[0]))
  {
    match rule
    case MonthName => FirstLiteral(MonthNames, s)
    case WeekdayName => FirstLiteral(WeekdayNames, s)
    case DayNumber => DayMatch(s)
    case TimeOfDay => TimeMatch(s)
    case Punctuation => PunctuationMatch(s)
    case Whitespace => SpaceRun(s)
  }

  /** The rule that wins at the start of `s`, with the length it consumes: the first rule
      in list order that matches, not the one with the longest match. */
  function FirstMatch(rules: seq<Rule>, s: string): (m: Option<(Rule, nat)>)
    ensures m.Some? ==> 0 < m.value.1 <= |s| && m.value.1 == MatchLength(m.value.0, s)
    ensures m.Some? ==> m.value.0 in rules
    ensures m.None? <==> forall j :: 0 <= j < |rules| ==> MatchLength(rules[j], s) == 0
  {
    if rules == [] then None
    else if MatchLength(rules[0], s) > 0 then Some((rules[0], MatchLength(rules[0], s)))
    else FirstMatch(rules[1..], s)
  }

  /** `names_list.index(x) if x in names_list`: the first position of `x`, if any. */
  function Lookup(names: seq<string>, x: string): (r: Option<nat>)
    ensures r.Some? <==> x in names
    ensures r.Some? ==> r.value < |names| && names[r.value] == x
    ensures r.Some? ==> forall j :: 0 <= j < r.value ==> names[j] != x
  {
    if names == [] then None
    else if names[0] == x then Some(0)
    else match Lookup(names[1..], x)
      case None => None
      case Some(i) => Some(i + 1)
  }

  /** `Scanner.parse_month`: the month number of a full or abbreviated name. */
  function ParseMonth(text: string): (r: Option<Token>)
    ensures r.Some? <==> text in MonthNames
    ensures r.Some? ==> r.value.kind == MONTH && WellShaped(r.value)
  {
    match Lookup(MonthsFull, text)
    case Some(i) => Some(Token(MONTH, Num(i + 1)))
    case None =>
      match Lookup(MonthsAbbr, text)
      case Some(i) => Some(Token(MONTH, Num(i + 1)))
      case None => None
  }

  /** `Scanner.parse_weekday`: Sunday is 1 and Saturday is 7; "Tues" is 3 and "Thurs" is 5. */
  function ParseWeekday(text: string): (r: Option<Token>)
    ensures r.Some? <==> text in WeekdayNames
    ensures r.Some? ==> r.value.kind == WEEKDAY && WellShaped(r.value)
  {
    if text == "Tues" then Some(Token(WEEKDAY, Num(3)))
    else if text == "Thurs" then Some(Token(WEEKDAY, Num(5)))
    else match Lookup(WeekdaysFull, text)
      case Some(i) => Some(Token(WEEKDAY, Num(i + 1)))
      case None =>
        match Lookup(WeekdaysThree, text)
        case Some(i) => Some(Token(WEEKDAY, Num(i + 1)))
        case None =>
          match Lookup(WeekdaysOne, text)
          case Some(i) => Some(Token(WEEKDAY, Num(i + 1)))
          case None => None
  }

  /** `Scanner.parse_day`: all digits, or digits followed by exactly two more characters
      (an ordinal suffix); anything else gives `None`, which the scanner drops. */
  function ParseDay(text: string): (r: Option<Token>)
    ensures r.Some? <==> IsDecimal(text) || (|text| >= 2 && IsDecimal(text[..|text| - 2]))
    ensures r.Some? ==> r.value.kind == DAY && WellShaped(r.value)
  {
    if IsDecimal(text) then Some(Token(DAY, Num(DigitsValue(text))))
    else
      var stem := text[..if |text| >= 2 then |text| - 2 else 0];
      if IsDecimal(stem) then Some(Token(DAY, Num(DigitsValue(stem)))) else None
  }

  /** The position of the first `c` in `s`, or `|s|` when there is none. */
  function CharIndex(s: string, c: char): (i: nat)
    ensures i <= |s| && c !in s[..i]
    ensures i < |s| <==> c in s
    ensures i < |s| ==> s[i] == c
  {
    if s == [] then 0
    else if s[0] == c then 0
    else
      var i := 1 + CharIndex(s[1..], c);
      assert s[..i] == [s[0]] + s[1..][..i - 1];
      i
  }

  /** The hour and minute `Scanner.parse_time` reads, before the pm adjustment: with a
      colon, `int` of the text before it and of the first two characters of the field after
      it (up to a second colon, as `split(":")` cuts); without
      one, `int` of the leading digits and minute 0. `None` is `int`'s `ValueError`. */
  function ClockFields(text: string): (r: Option<(nat, nat)>)
    ensures ':' !in text ==> (r.Some? <==> text != [] && IsDigit(text[0]))
    ensures ':' !in text && r.Some? ==> r.value.1 == 0
  {
    var i := CharIndex(text, ':');
    if i < |text| then
      var after := text[i + 1..];
      var field := after[..CharIndex(after, ':')];
      var h := IntOf(text[..i]);
      var m := IntOf(field[..if |field| < 2 then |field| else 2]);
      if h.Some? && m.Some? then Some((h.value, m.value)) else None
    else
      var h := IntOf(text[..DigitRun(text)]);
      if h.Some? then Some((h.value, 0)) else None
  }

  /** `(\d*)`: the length of the run of leading digits. */
  function DigitRun(s: string): (n: nat)
    ensures n <= |s|
    ensures forall i :: 0 <= i < n ==> IsDigit(s[i])
    ensures n < |s| ==> !IsDigit(s[n])
  {
    if s != [] && IsDigit(s[0]) then 1 + DigitRun(s[1..]) else 0
  }

  /** True when the text carries a 'p' or 'P' anywhere. */
  predicate HasPm(text: string)
    ensures HasPm(text) <==> 'p' in text || 'P' in text
  {
    CharIndex(text, 'p') < |text| || CharIndex(text, 'P') < |text|
  }

  /** `Scanner.parse_time`: 12 is added to hours below 12 when the text holds a 'p' or 'P';
      `None` is the `ValueError` raised for a malformed number or an out-of-range time. */
  function ParseTime(text: string): (r: Option<Token>)
    ensures r.Some? ==> r.value.kind == TIME && WellShaped(r.value)
  {
    match ClockFields(text)
    case None => None
    case Some((hours, minutes)) =>
      var h := if HasPm(text) && hours < 12 then hours + 12 else hours;
      match MakeTime(h, minutes)
      case None => None
      case Some(t) => Some(Token(TIME, At(t)))
  }

  function PunctuationKind(text: string): Kind {
    if text == "--" then DOUBLE_DASH
    else if text == "-" then DASH
    else if text == "," then COMMA
    else if text == ":" then COLON
    else DOT
  }

  /** What an action does with the matched text. */
  datatype Action = Emit(token: Token) | Drop | Raise

  /** The kinds of token a rule's action can emit. */
  function RuleKinds(rule: Rule): set<Kind> {
    match rule
    case MonthName => {MONTH}
    case WeekdayName => {WEEKDAY}
    case DayNumber => {DAY}
    case TimeOfDay => {TIME}
    case Punctuation => {DASH, DOUBLE_DASH, COMMA, COLON, DOT}
    case Whitespace => {}
  }

  /** A rule's action. A `None` returned by a parse action is dropped, as `re.Scanner`
      drops every `None`; only `parse_time` can raise. */
  function Act(rule: Rule, text: string): (a: Action)
    ensures a.Emit? ==> WellShaped(a.token) && a.token.kind in RuleKinds(rule)
    ensures a.Raise? ==> rule == TimeOfDay
  {
    match rule
    case MonthName => (match ParseMonth(text) case Some(t) => Emit(t) case None => Drop)
    case WeekdayName => (match ParseWeekday(text) case Some(t) => Emit(t) case None => Drop)
    case DayNumber => (match ParseDay(text) case Some(t) => Emit(t) case None => Drop)
    case TimeOfDay => (match ParseTime(text) case Some(t) => Emit(t) case None => Raise)
    case Punctuation => Emit(Token(PunctuationKind(text), Blank))
    case Whitespace => Drop
  }

  /** The kinds of token a rule list can emit. */
  function KindsOf(rules: seq<Rule>): set<Kind> {
    if rules == [] then {} else RuleKinds(rules[0]) + KindsOf(rules[1..])
  }

  /** The scanner's outcome: the tokens; `ScannerError((input, remainder))`; or the
      `ValueError` a time action raised. */
  datatype ScanResult = Scanned(tokens: seq<Token>) | ScanError(input: string, remainder: string) | ValueError

  /** Scanning `s` from position `i` on. */
  function ScanFrom(rules: seq<Rule>, s: string, i: nat): (r: ScanResult)
    requires i <= |s|
    ensures r.ScanError? ==> r.input == s && 0 < |r.remainder| <= |s| - i
                             && r.remainder == s[|s| - |r.remainder|..]
                             && FirstMatch(rules, r.remainder).None?
    ensures r.Scanned? ==> forall t <- r.tokens :: WellShaped(t) && t.kind in KindsOf(rules)
    ensures r.ValueError? ==> TimeOfDay in rules
    decreases |s| - i
  {
    match FirstMatch(rules, s[i..])
    case None => if i == |s| then Scanned([]) else ScanError(s, s[i..])
    case Some((rule, n)) =>
      KindsCover(rules, rule);
      match Act(rule, s[i..i + n])
      case Raise => ValueError
      case Drop => ScanFrom(rules, s, i + n)
      case Emit(t) => Prefixed(t, ScanFrom(rules, s, i + n))
  }

  /** The outcome of scanning on after emitting `t`: a failure further on wins. */
  function Prefixed(t: Token, rest: ScanResult): ScanResult {
    match rest
    case Scanned(ts) => Scanned([t] + ts)
    case failed => failed
  }

  lemma {:induction false} KindsCover(rules: seq<Rule>, rule: Rule)
    requires rule in rules
    ensures RuleKinds(rule) <= KindsOf(rules)
  {
    if rules[0] != rule {
      KindsCover(rules[1..], rule);
    }
  }

  /** No rule emits END, the sentinel the parser appends. */
  lemma {:induction false} NoEndKind(rules: seq<Rule>)
    ensures END !in KindsOf(rules)
  {
    if rules != [] {
      NoEndKind(rules[1..]);
    }
  }

  /** `Scanner.scan`: the tokens when the whole input is consumed, otherwise
      `ScannerError((input, remainder))`. */
  function Scan(rules: seq<Rule>, s: string): (r: ScanResult)
    ensures r.ScanError? ==> r.input == s && 0 < |r.remainder| <= |s| && r.remainder == s[|s| - |r.remainder|..]
    ensures r.Scanned? ==> forall t <- r.tokens :: WellShaped(t) && t.kind != END
  {
    NoEndKind(rules);
    ScanFrom(rules, s, 0)
  }

  // Which rule wins where

  /** The rule that wins is the first in list order that matches. */
  lemma {:induction false} FirstMatchAt(rules: seq<Rule>, s: string, k: nat)
    requires k < |rules| && MatchLength(rules[k], s) > 0
    requires forall j :: 0 <= j < k ==> MatchLength(rules[j], s) == 0
    ensures FirstMatch(rules, s) == Some((rules[k], MatchLength(rules[k], s)))
  {
    if k > 0 {
      FirstMatchAt(rules[1..], s, k - 1);
    }
  }

  // The name tables read back

  /** `index` finds an entry that no earlier entry equals at its own position. */
  lemma LookupAt(names: seq<string>, k: nat)
    requires k < |names|
    requires forall j :: 0 <= j < k ==> names[j] != names[k]
    ensures Lookup(names, names[k]) == Some(k)
  {
  }

  lemma WeekdayLengths()
    ensures forall i :: 0 <= i < |WeekdaysFull| ==> |WeekdaysFull[i]| >= 6
    ensures forall i :: 0 <= i < |WeekdaysThree| ==> |WeekdaysThree[i]| == 3
    ensures forall i :: 0 <= i < |WeekdaysOne| ==> |WeekdaysOne[i]| == 1
  {
  }

  /** Every month name but "May" is longer than an abbreviation. */
  lemma MonthLengths()
    ensures forall i :: 0 <= i < |MonthsFull| ==> |MonthsFull[i]| >= 3
    ensures forall i :: 0 <= i < |MonthsFull| && i != 4 ==> |MonthsFull[i]| >= 4
    ensures forall i :: 0 <= i < |MonthsAbbr| ==> |MonthsAbbr[i]| == 3
  {
  }

  /** Each full weekday name reads as its position counting Sunday as 1. */
  lemma WeekdayFullReadsBack(k: nat)
    requires k < |WeekdaysFull|
    ensures ParseWeekday(WeekdaysFull[k]) == Some(Token(WEEKDAY, Num(k + 1)))
  {
    WeekdayLengths();
    assert WeekdaysFull[k] != "Tues" && WeekdaysFull[k] != "Thurs";
    FullWeekdaysDistinct(k);
    LookupAt(WeekdaysFull, k);
  }

  /** Each three-letter weekday name reads as its position, "Sat" being 7. */
  lemma WeekdayAbbrReadsBack(k: nat)
    requires k < |WeekdaysThree|
    ensures ParseWeekday(WeekdaysThree[k]) == Some(Token(WEEKDAY, Num(k + 1)))
  {
    WeekdayLengths();
    assert WeekdaysThree[k] !in WeekdaysFull;
    AbbrWeekdaysDistinct(k);
    LookupAt(WeekdaysThree, k);
  }

  /** Each one-letter weekday name (U M T W R F S) reads as its position. */
  lemma WeekdayLetterReadsBack(k: nat)
    requires k < |WeekdaysOne|
    ensures ParseWeekday(WeekdaysOne[k]) == Some(Token(WEEKDAY, Num(k + 1)))
  {
    WeekdayLengths();
    assert WeekdaysOne[k] !in WeekdaysFull && WeekdaysOne[k] !in WeekdaysThree;
    LettersDistinct(k);
    LookupAt(WeekdaysOne, k);
  }

  lemma FullWeekdaysDistinct(k: nat)
    requires k < |WeekdaysFull|
    ensures forall j :: 0 <= j < k ==> WeekdaysFull[j] != WeekdaysFull[k]
  {
    var x := WeekdaysFull[k];
    WeekdayLengths();
    assert forall j :: 0 <= j < k ==> WeekdaysFull[j][0] != x[0] || WeekdaysFull[j][1] != x[1];
  }

  lemma AbbrWeekdaysDistinct(k: nat)
    requires k < |WeekdaysThree|
    ensures forall j :: 0 <= j < k ==> WeekdaysThree[j] != WeekdaysThree[k]
  {
    var x := WeekdaysThree[k];
    WeekdayLengths();
    assert forall j :: 0 <= j < k ==> WeekdaysThree[j][0] != x[0] || WeekdaysThree[j][1] != x[1];
  }

  lemma LettersDistinct(k: nat)
    requires k < |WeekdaysOne|
    ensures forall j :: 0 <= j < k ==> WeekdaysOne[j] != WeekdaysOne[k]
  {
    var x := WeekdaysOne[k];
    WeekdayLengths();
    assert forall j :: 0 <= j < k ==> WeekdaysOne[j][0] != x[0];
  }

  /** "M" is Monday, 2, and "F" is Friday, 6: the ends of the range "M-F". */
  lemma MondayAndFriday()
    ensures ParseWeekday("M") == Some(Token(WEEKDAY, Num(2)))
    ensures ParseWeekday("F") == Some(Token(WEEKDAY, Num(6)))
  {
    WeekdayLetterReadsBack(1);
    WeekdayLetterReadsBack(5);
  }

  /** Each full month name reads as its month number. */
  lemma MonthFullReadsBack(k: nat)
    requires k < |MonthsFull|
    ensures ParseMonth(MonthsFull[k]) == Some(Token(MONTH, Num(k + 1)))
  {
    FullMonthsDistinct(k);
    LookupAt(MonthsFull, k);
    FoundInFullMonths(MonthsFull[k], k);
  }

  lemma FoundInFullMonths(x: string, i: nat)
    requires Lookup(MonthsFull, x) == Some(i)
    ensures ParseMonth(x) == Some(Token(MONTH, Num(i + 1)))
  {
  }

  lemma FullMonthsDistinct(k: nat)
    requires k < |MonthsFull|
    ensures forall j :: 0 <= j < k ==> MonthsFull[j] != MonthsFull[k]
  {
    var x := MonthsFull[k];
    MonthLengths();
    assert forall j :: 0 <= j < k ==> MonthsFull[j][0] != x[0] || MonthsFull[j][1] != x[1] || MonthsFull[j][2] != x[2];
  }

  lemma AbbrNotFull(k: nat)
    requires k < |MonthsAbbr| && k != 4
    ensures MonthsAbbr[k] !in MonthsFull
  {
    var x := MonthsAbbr[k];
    MonthLengths();
    assert forall j :: 0 <= j < |MonthsFull| ==>
      MonthsFull[j][0] != x[0] || MonthsFull[j][1] != x[1] || MonthsFull[j][2] != x[2] || |MonthsFull[j]| != 3;
  }

  lemma AbbrDistinct(k: nat)
    requires k < |MonthsAbbr|
    ensures forall j :: 0 <= j < k ==> MonthsAbbr[j] != MonthsAbbr[k]
  {
    var x := MonthsAbbr[k];
    MonthLengths();
    assert forall j :: 0 <= j < k ==> MonthsAbbr[j][0] != x[0] || MonthsAbbr[j][1] != x[1] || MonthsAbbr[j][2] != x[2];
  }

  /** Each abbreviated month name reads as its month number; "May", which is also a full
      name, is found in the full names first, at the same position. */
  lemma MonthAbbrReadsBack(k: nat)
    requires k < |MonthsAbbr|
    ensures ParseMonth(MonthsAbbr[k]) == Some(Token(MONTH, Num(k + 1)))
  {
    if k == 4 {
      assert MonthsAbbr[k] == MonthsFull[4];
      LookupAt(MonthsFull, 4);
    } else {
      AbbrNotFull(k);
      AbbrDistinct(k);
      LookupAt(MonthsAbbr, k);
    }
  }

  // What `parse_day` reads

  /** Digits alone are the day they denote. */
  lemma ParseDayDigits(d: string)
    requires IsDecimal(d)
    ensures ParseDay(d) == Some(Token(DAY, Num(DigitsValue(d))))
  {
  }

  /** Digits followed by exactly two more characters, not both digits, are the day the
      digits denote: the two characters are cut off unread. */
  lemma ParseDaySuffix(d: string, sfx: string)
    requires IsDecimal(d) && |sfx| == 2 && !IsDecimal(d + sfx)
    ensures ParseDay(d + sfx) == Some(Token(DAY, Num(DigitsValue(d))))
  {
    assert (d + sfx)[..|d + sfx| - 2] == d;
  }

  /** Any other text gives `None`, and the scanner drops it without a token. */
  lemma ParseDayDropped(t: string)
    requires !IsDecimal(t)
    requires |t| < 2 || !IsDecimal(t[..|t| - 2])
    ensures ParseDay(t) == None
  {
  }

  /** "January" is month 1. */
  lemma JanuaryIsOne(t: string)
    requires t == "January"
    ensures ParseMonth(t) == Some(Token(MONTH, Num(1)))
  {
  }

  /** "Tues" is weekday 3, Tuesday counting from Sunday as 1. */
  lemma TuesIsThree(t: string)
    requires t == "Tues"
    ensures ParseWeekday(t) == Some(Token(WEEKDAY, Num(3)))
  {
  }

  /** "Thurs" is weekday 5. */
  lemma ThursIsFive(t: string)
    requires t == "Thurs"
    ensures ParseWeekday(t) == Some(Token(WEEKDAY, Num(5)))
  {
  }

  /** The one-letter "U" is Sunday, weekday 1. */
  lemma UIsSunday(t: string)
    requires t == "U"
    ensures ParseWeekday(t) == Some(Token(WEEKDAY, Num(1)))
  {
  }

  /** "Sunday" is weekday 1. */
  lemma SundayIsOne(t: string)
    requires t == "Sunday"
    ensures ParseWeekday(t) == Some(Token(WEEKDAY, Num(1)))
  {
  }

  /** "8th" is day 8: the two characters after the digits are cut off ... */
  lemma EighthIsEight(t: string)
    requires t == "8th"
    ensures ParseDay(t) == Some(Token(DAY, Num(8)))
  {
    assert !IsDigit(t[1]);
    assert !IsDecimal(t);
    assert t[..|t| - 2] == "8";
    assert DigitsValue("8") == DigitsValue("") * 10 + DigitValue('8');
  }

  /** ... but "1x", with one character after the digit, gives no day: the action answers
      `None` and the scanner drops the text without a token. */
  lemma OneLetterSuffixDropped(t: string)
    requires t == "1x"
    ensures ParseDay(t) == None
  {
    assert t[..0] == "";
  }

  predicate IsCapital(c: char) {
    'A' <= c <= 'Z'
  }

  /** Every month and weekday name starts with a capital letter. */
  lemma NamesCapitalised()
    ensures forall k :: 0 <= k < |MonthNames| ==> MonthNames[k] != [] && IsCapital(MonthNames[k][0])
    ensures forall k :: 0 <= k < |WeekdayNames| ==> WeekdayNames[k] != [] && IsCapital(WeekdayNames[k][0])
  {
  }

  /** No alternative matches text that starts with a character none of them starts with. */
  lemma NoLiteral(alts: seq<string>, s: string)
    requires s != []
    requires forall k :: 0 <= k < |alts| ==> alts[k] != [] && alts[k][0] != s[0]
    ensures FirstLiteral(alts, s) == 0
  {
  }

  /** No alternative matches text whose first two characters differ from each of theirs. */
  lemma NoLiteral2(alts: seq<string>, s: string)
    requires |s| >= 2
    requires forall k :: 0 <= k < |alts| ==> |alts[k]| >= 2 && (alts[k][0] != s[0] || alts[k][1] != s[1])
    ensures FirstLiteral(alts, s) == 0
  {
  }

  /** Where the text does not start with a capital letter, neither name rule matches. */
  lemma NoNameAt(s: string)
    requires s != [] && !IsCapital(s[0])
    ensures MatchLength(MonthName, s) == 0 && MatchLength(WeekdayName, s) == 0
  {
    NamesCapitalised();
    NoLiteral(MonthNames, s);
    NoLiteral(WeekdayNames, s);
  }

  /** At a space only the whitespace rule matches. */
  lemma OnlySpaceMatches(t: string)
    requires t != [] && IsSpace(t[0])
    ensures MatchLength(MonthName, t) == 0 && MatchLength(WeekdayName, t) == 0
    ensures MatchLength(DayNumber, t) == 0 && MatchLength(TimeOfDay, t) == 0
    ensures MatchLength(Punctuation, t) == 0 && MatchLength(Whitespace, t) > 0
  {
    NoNameAt(t);
  }

  /** Whitespace yields no token: at a space, in either scanner, the whitespace rule wins,
      takes the whole run of spaces, and its action drops it. */
  lemma SpacesDropped(rules: seq<Rule>, t: string)
    requires rules == DateRules || rules == TimeRules
    requires t != [] && IsSpace(t[0])
    ensures FirstMatch(rules, t) == Some((Whitespace, SpaceRun(t)))
    ensures Act(Whitespace, t[..SpaceRun(t)]) == Drop
  {
    OnlySpaceMatches(t);
    if rules == DateRules {
      assert forall j :: 0 <= j < 4 ==> DateRules[j] in {MonthName, WeekdayName, DayNumber, Punctuation};
      FirstMatchAt(DateRules, t, 4);
    } else {
      assert forall j :: 0 <= j < 2 ==> TimeRules[j] in {TimeOfDay, Punctuation};
      FirstMatchAt(TimeRules, t, 2);
    }
  }

  /** The information separators `\x1c` to `\x1f` are whitespace to `\s` as well, so
      "January\x1c5" reads as "January 5". */
  lemma SeparatorDropped(rules: seq<Rule>, t: string)
    requires rules == DateRules || rules == TimeRules
    requires t != [] && '\U{1C}' <= t[0] <= '\U{1F}'
    ensures FirstMatch(rules, t) == Some((Whitespace, SpaceRun(t)))
    ensures Act(Whitespace, t[..SpaceRun(t)]) == Drop
  {
    SpacesDropped(rules, t);
  }

  predicate IsPunctuationChar(c: char) {
    c == '-' || c == ',' || c == ':' || c == '.'
  }

  /** The kind and length of the punctuation at the start of `s`: "--" before "-". */
  function PunctuationAt(s: string): (Kind, nat)
    requires s != []
  {
    if |s| >= 2 && s[0] == '-' && s[1] == '-' then (DOUBLE_DASH, 2)
    else if s[0] == '-' then (DASH, 1)
    else if s[0] == ',' then (COMMA, 1)
    else if s[0] == ':' then (COLON, 1)
    else (DOT, 1)
  }

  /** `--`, `-`, `,`, `:` and `.` each yield a token of their own kind with no value, in
      either scanner. */
  lemma PunctuationEmitted(rules: seq<Rule>, t: string)
    requires rules == DateRules || rules == TimeRules
    requires t != [] && IsPunctuationChar(t[0])
    ensures FirstMatch(rules, t) == Some((Punctuation, PunctuationAt(t).1))
    ensures Act(Punctuation, t[..PunctuationAt(t).1]) == Emit(Token(PunctuationAt(t).0, Blank))
  {
    NoNameAt(t);
    assert MatchLength(DayNumber, t) == 0 && MatchLength(TimeOfDay, t) == 0;
    var n := MatchLength(Punctuation, t);
    assert n == PunctuationAt(t).1;
    assert PunctuationKind(t[..n]) == PunctuationAt(t).0 by {
      if n == 2 {
        assert t[..n] == "--";
      } else {
        assert t[..n] == [t[0]];
      }
    }
    if rules == DateRules {
      assert forall j :: 0 <= j < 3 ==> DateRules[j] in {MonthName, WeekdayName, DayNumber};
      FirstMatchAt(DateRules, t, 3);
    } else {
      assert TimeRules[0] == TimeOfDay;
      FirstMatchAt(TimeRules, t, 1);
    }
  }

  /** A character that starts no token (a lower-case letter, say) stops the scan there,
      whatever follows it: the error carries the rest of the input from that character. */
  lemma StrayCharacter(rules: seq<Rule>, s: string, i: nat)
    requires rules == DateRules || rules == TimeRules
    requires i < |s| && !IsCapital(s[i]) && !IsDigit(s[i]) && !IsSpace(s[i]) && !IsPunctuationChar(s[i])
    ensures ScanFrom(rules, s, i) == ScanError(s, s[i..])
  {
    NoRuleAt(rules, s[i..]);
    ScanStops(rules, s, i);
  }

  /** No rule matches text that starts with a character that starts no token. */
  lemma NoRuleAt(rules: seq<Rule>, t: string)
    requires rules == DateRules || rules == TimeRules
    requires t != [] && !IsCapital(t[0]) && !IsDigit(t[0]) && !IsSpace(t[0]) && !IsPunctuationChar(t[0])
    ensures FirstMatch(rules, t).None?
  {
    NoNameAt(t);
  }

  /** Where no rule matches, the scan stops with the rest of the input as the remainder. */
  lemma ScanStops(rules: seq<Rule>, s: string, i: nat)
    requires i < |s| && FirstMatch(rules, s[i..]).None?
    ensures ScanFrom(rules, s, i) == ScanError(s, s[i..])
  {
  }

  // "Saturday" is not a listed weekday name

  lemma SaturdayMissesMonths(s: string)
    requires |s| >= 2 && s[0] == 'S' && s[1] == 'a'
    ensures MatchLength(MonthName, s) == 0
  {
    NoLiteral2(MonthNames, s);
  }

  lemma SaturdayMatchesSat(s: string)
    requires |s| >= 3 && s[..3] == "Sat"
    ensures MatchLength(WeekdayName, s) == 3
  {
    assert WeekdayNames[14] == "Sat";
    assert forall j :: 0 <= j < 14 ==> !(WeekdayNames[j] <= s) by {
      NoLiteral2(WeekdayNames[..14], s);
    }
    FirstLiteralAt(WeekdayNames, s, 14);
  }

  lemma SatIsSaturday(t: string)
    requires t == "Sat"
    ensures ParseWeekday(t) == Some(Token(WEEKDAY, Num(7)))
  {
    assert WeekdaysThree[6] == t;
    assert forall j :: 0 <= j < 6 ==> WeekdaysThree[j] != t;
    assert t !in WeekdaysFull;
  }

  lemma SaturdayWins(s: string)
    requires s == "Saturday"
    ensures FirstMatch(DateRules, s) == Some((WeekdayName, 3))
  {
    SaturdayMissesMonths(s);
    SaturdayMatchesSat(s);
    FirstMatchAt(DateRules, s, 1);
  }

  lemma SaturdayStops(s: string)
    requires s == "Saturday"
    ensures ScanFrom(DateRules, s, 3) == ScanError(s, "urday")
  {
    assert s[3..] == "urday";
    StrayCharacter(DateRules, s, 3);
  }

  /** In "Saturday" the weekday rule wins with its first listed prefix "Sat", which
      reads as Saturday; the scan then stops at "urday". */
  lemma SaturdaySteps(s: string)
    requires s == "Saturday"
    ensures FirstMatch(DateRules, s) == Some((WeekdayName, 3))
    ensures Act(WeekdayName, s[0..3]) == Emit(Token(WEEKDAY, Num(7)))
    ensures ScanFrom(DateRules, s, 3) == ScanError(s, "urday")
  {
    SaturdayWins(s);
    SatIsSaturday(s[0..3]);
    SaturdayStops(s);
  }

  /** The full weekday name "Saturday" does not scan: `ScannerError` with remainder "urday". */
  lemma SaturdayFails(s: string)
    requires s == "Saturday"
    ensures Scan(DateRules, s) == ScanError(s, "urday")
  {
    SaturdaySteps(s);
  }

  // What `parse_time` reads

  /** The hour `parse_time` settles on: 12 more when the text holds a 'p' or 'P' and the
      hour is below 12. */
  function PmHour(hours: nat, pm: bool): nat {
    if pm && hours < 12 then hours + 12 else hours
  }

  /** With a colon, the hour is the number before it and the minutes are the two digits
      after it, whatever follows them; the time exists when the hour is below 24 and the
      minutes below 60, and otherwise `parse_time` raises. */
  lemma ParseTimeColon(hs: string, ms: string, rest: string)
    requires IsDecimal(hs) && |ms| == 2 && IsDecimal(ms)
    ensures var h := PmHour(DigitsValue(hs), 'p' in rest || 'P' in rest);
            var m := DigitsValue(ms);
            ParseTime(hs + ":" + ms + rest) == if h < 24 && m < 60 then Some(Token(TIME, At(Time(h, m)))) else None
  {
    var t := hs + ":" + ms + rest;
    assert t[..|hs|] == hs && t[|hs|] == ':' && t[|hs| + 1..|hs| + 3] == ms;
    ColonFields(t, |hs|);
    ReadFields(t, DigitsValue(hs), DigitsValue(ms));
    DigitsHaveNoPm(hs);
    DigitsHaveNoPm(ms);
    NoPmInFront(hs + ":" + ms, rest);
  }

  /** `parse_time` once its fields are read: the pm rule, then `datetime.time`. */
  lemma ReadFields(t: string, h: nat, m: nat)
    requires ClockFields(t) == Some((h, m))
    ensures var hh := PmHour(h, HasPm(t));
            ParseTime(t) == if hh < 24 && m < 60 then Some(Token(TIME, At(Time(hh, m)))) else None
  {
  }

  /** The fields `parse_time` cuts from digits, a colon and two more digits: `split(":")`
      ends the first field at the colon, and `[:2]` takes the two digits after it. */
  lemma ColonFields(t: string, i: nat)
    requires i + 2 < |t| && IsDecimal(t[..i]) && t[i] == ':' && IsDigit(t[i + 1]) && IsDigit(t[i + 2])
    ensures ClockFields(t) == Some((DigitsValue(t[..i]), DigitsValue(t[i + 1..i + 3])))
  {
    assert ':' !in t[..i];
    assert CharIndex(t, ':') == i;
    var after := t[i + 1..];
    assert after[0] == t[i + 1] && after[1] == t[i + 2];
    var j := CharIndex(after, ':');
    assert after[..j][..2] == t[i + 1..i + 3];
  }

  lemma DigitsHaveNoPm(s: string)
    requires IsDecimal(s)
    ensures 'p' !in s && 'P' !in s
  {
  }

  /** Text with no 'p' or 'P' in front holds one exactly when the rest does. */
  lemma NoPmInFront(front: string, rest: string)
    requires 'p' !in front && 'P' !in front
    ensures ('p' in front + rest || 'P' in front + rest) <==> ('p' in rest || 'P' in rest)
  {
  }

  /** Without a colon, the hour is the leading number and the minutes are 0. */
  lemma ParseTimeHour(hs: string, rest: string)
    requires IsDecimal(hs) && ':' !in rest && (rest == [] || !IsDigit(rest[0]))
    ensures var h := PmHour(DigitsValue(hs), 'p' in rest || 'P' in rest);
            ParseTime(hs + rest) == if h < 24 then Some(Token(TIME, At(Time(h, 0)))) else None
  {
    var t := hs + rest;
    assert t[..|hs|] == hs && ':' !in t;
    assert |hs| < |t| ==> t[|hs|] == rest[0];
    HourFields(t, |hs|);
    ReadFields(t, DigitsValue(hs), 0);
    DigitsHaveNoPm(hs);
    NoPmInFront(hs, rest);
  }

  /** `(\d*)` takes exactly the leading digits of text with no colon. */
  lemma HourFields(t: string, i: nat)
    requires i <= |t| && IsDecimal(t[..i]) && ':' !in t && (i == |t| || !IsDigit(t[i]))
    ensures ClockFields(t) == Some((DigitsValue(t[..i]), 0))
  {
    assert CharIndex(t, ':') == |t|;
    forall k | 0 <= k < i ensures IsDigit(t[k]) {
      assert t[k] == t[..i][k];
    }
    assert DigitRun(t) == i;
  }

  /** A valid time written as `str(hour)`, a colon and two-digit minutes reads back as
      itself. */
  lemma TimeTextReadsBack(t: Time)
    requires ValidTime(t)
    ensures ParseTime(DecimalText(t.hour) + ":" + Pad2(t.minute)) == Some(Token(TIME, At(t)))
  {
    ParseTimeColon(DecimalText(t.hour), Pad2(t.minute), "");
    assert DecimalText(t.hour) + ":" + Pad2(t.minute) + "" == DecimalText(t.hour) + ":" + Pad2(t.minute);
  }

  /** An afternoon time on the 12-hour clock, "1:MMpm" to "12:MMpm", reads as 13:MM to
      23:MM, with "12:MMpm" staying at 12:MM. */
  lemma PmTextReadsBack(h: nat, m: nat)
    requires 1 <= h <= 12 && m < 60
    ensures ParseTime(DecimalText(h) + ":" + Pad2(m) + "pm")
            == Some(Token(TIME, At(Time(if h == 12 then 12 else h + 12, m))))
  {
    ParseTimeColon(DecimalText(h), Pad2(m), "pm");
    assert 'p' in "pm";
  }


  /** "7:00pm" is 19:00: a 'p' adds 12 to an hour below 12. */
  lemma SevenPm(t: string)
    requires t == "7:00pm"
    ensures ParseTime(t) == Some(Token(TIME, At(Time(19, 0))))
  {
    assert CharIndex(t, ':') == 1;
    assert t[..1] == "7";
    assert CharIndex(t[2..], ':') == 4;
    assert t[2..][..4][..2] == "00";
    assert DigitsValue("00") == 0 by { assert "00"[..1] == "0"; }
    assert ClockFields(t) == Some((7, 0));
    assert t[4] == 'p';
  }

  /** "9" is 9:00: without a colon the minutes are 0. */
  lemma NineOClock()
    ensures ParseTime("9") == Some(Token(TIME, At(Time(9, 0))))
  {
  }

  /** "12am" is 12:00, noon: only a 'p' changes the hour, and 12 is never moved. */
  lemma TwelveAm()
    ensures ParseTime("12am") == Some(Token(TIME, At(Time(12, 0))))
  {
    var t := "12am";
    assert CharIndex(t, ':') == 4;
    assert DigitRun(t) == 2;
    assert t[..2] == "12";
    assert DigitsValue("12") == 12 by { assert "12"[..1] == "1"; }
    assert ClockFields(t) == Some((12, 0));
  }

  // "9:00pm-9:30": the pm marker belongs to one time only

  /** The time action reads "9:00pm" as 21:00 ... */
  lemma NinePm(t: string)
    requires t == "9:00pm"
    ensures Act(TimeOfDay, t) == Emit(Token(TIME, At(Time(21, 0))))
  {
    assert CharIndex(t, ':') == 1;
    assert t[..1] == "9";
    assert CharIndex(t[2..], ':') == 4;
    assert t[2..][..4][..2] == "00";
    assert DigitsValue("00") == 0 by { assert "00"[..1] == "0"; }
    assert ClockFields(t) == Some((9, 0));
    assert t[4] == 'p';
  }

  /** ... and "9:30" as 9:30: a 'pm' earlier on the line does not carry over. */
  lemma NineThirty(t: string)
    requires t == "9:30"
    ensures Act(TimeOfDay, t) == Emit(Token(TIME, At(Time(9, 30))))
  {
    assert CharIndex(t, ':') == 1;
    assert t[..1] == "9";
    assert CharIndex(t[2..], ':') == 2;
    assert t[2..][..2][..2] == "30";
    assert DigitsValue("30") == 30 by { assert "30"[..1] == "3"; }
    assert ClockFields(t) == Some((9, 30));
    assert !HasPm(t);
  }

  /** In "9:00pm-9:30" the time rule takes "9:00pm", the 'pm' included, ... */
  lemma EveningStart(s: string)
    requires s == "9:00pm-9:30"
    ensures FirstMatch(TimeRules, s) == Some((TimeOfDay, 6))
  {
    NinePmLength(s);
    FirstMatchAt(TimeRules, s, 0);
  }

  lemma NinePmLength(s: string)
    requires s == "9:00pm-9:30"
    ensures MatchLength(TimeOfDay, s) == 6
  {
    assert TwoDigits(s) == 1;
    assert SpaceRun(s[4..]) == 0;
    assert MeridiemMatch(s[4..]) == 2;
  }

  /** ... and, after the dash, "9:30", the rest of the input. */
  lemma EveningLastMatch(s: string)
    requires s == "9:00pm-9:30"
    ensures FirstMatch(TimeRules, s[7..]) == Some((TimeOfDay, 4))
  {
    var t := s[7..];
    assert t == "9:30";
    assert TimeMatch(t) == 4 by {
      assert TwoDigits(t) == 1;
      assert SpaceRun(t[4..]) == 0;
      assert MeridiemMatch(t[4..]) == 0;
    }
    FirstMatchAt(TimeRules, t, 0);
  }

  /** ... the punctuation rule then takes the dash, ... */
  lemma EveningDash(s: string)
    requires s == "9:00pm-9:30"
    ensures FirstMatch(TimeRules, s[6..]) == Some((Punctuation, 1))
    ensures Act(Punctuation, s[6..7]) == Emit(Token(DASH, Blank))
  {
    PunctuationEmitted(TimeRules, s[6..]);
    assert s[6..][..1] == s[6..7];
  }
}
