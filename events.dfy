/** `read_line`: one line of the schedule file, `dates | times | event`, entered into the
    schedule under every (date, time pair) the two columns name. */
module Events {
  import opened Wrappers
  import opened Calendar
  import opened Tokens
  import opened Scanner
  import opened Cursor
  import opened TimeGrammar
  import opened DateGrammar

  /** Python's `s.split(c)`: the pieces between the occurrences of `c`. */
  function SplitOn(s: string, c: char): (r: seq<string>)
    ensures |r| > 0
    ensures forall i :: 0 <= i < |r| ==> c !in r[i]
    decreases |s|
  {
    var k := CharIndex(s, c);
    if k == |s| then [s] else [s[..k]] + SplitOn(s[k + 1..], c)
  }

  /** `c.join(parts)`. */
  function Join(parts: seq<string>, c: char): string {
    if parts == [] then ""
    else if |parts| == 1 then parts[0]
    else parts[0] + [c] + Join(parts[1..], c)
  }

  /** Splitting and joining again gives back the line. */
  lemma {:induction false} SplitJoin(s: string, c: char)
    ensures Join(SplitOn(s, c), c) == s
    decreases |s|
  {
    var k := CharIndex(s, c);
    if k < |s| {
      SplitJoin(s[k + 1..], c);
      assert s == s[..k] + [c] + s[k + 1..];
    }
  }

  /** Why a line is not entered. `Unpack`: the line does not have exactly three fields (the
      unpacking of `line.split("|")` raises `ValueError`); `ScanFailed`: `ScannerError`;
      `BadTime`: `parse_time`'s `ValueError`; `ParseFailed`: a failure while parsing. */
  datatype LineError = Unpack(fields: nat) | ScanFailed(input: string, remainder: string) | BadTime | ParseFailed(failure: Failure)

  /** What a line enters: the dates, the time pairs and the event text (the third field
      exactly as it stands, spaces included). */
  datatype Entry = Entry(dates: seq<Date>, pairs: seq<TimePair>, event: string)

  datatype LineResult = Read(entry: Entry) | Rejected(error: LineError)

  function ScanFailure(r: ScanResult): LineError
    requires !r.Scanned?
  {
    if r.ScanError? then ScanFailed(r.input, r.remainder) else BadTime
  }

  lemma ScannedStream(rules: seq<Rule>, s: string)
    requires Scan(rules, s).Scanned?
    ensures IsStream(Scan(rules, s).tokens + [EndToken])
    ensures forall t <- Scan(rules, s).tokens :: t.kind != END && WellShaped(t)
  {
    NoEndKind(rules);
  }

  /** The line's entry, in the order the program meets the failures: splitting, scanning
      the dates, scanning the times, then (as `itertools.product` takes both generators in
      full before the first write) parsing the dates and then the times. */
  function ParseLine(line: string, year: int): (r: LineResult)
    ensures r.Read? ==> |SplitOn(line, '|')| == 3 && r.entry.event == SplitOn(line, '|')[2]
    ensures r.Read? ==> |r.entry.pairs| > 0
    ensures r.Read? ==> forall d <- r.entry.dates :: ValidDate(d) && d.year == year
  {
    var fields := SplitOn(line, '|');
    if |fields| != 3 then Rejected(Unpack(|fields|))
    else
      var dateScan := Scan(DateRules, fields[0]);
      var timeScan := Scan(TimeRules, fields[1]);
      if !dateScan.Scanned? then Rejected(ScanFailure(dateScan))
      else if !timeScan.Scanned? then Rejected(ScanFailure(timeScan))
      else
        ScannedStream(DateRules, fields[0]);
        ScannedStream(TimeRules, fields[1]);
        ParseColumns(dateScan.tokens, timeScan.tokens, year, fields[2])
  }

  /** Parsing the two scanned columns: all the dates first, then all the time pairs. */
  function ParseColumns(dateTokens: seq<Token>, timeTokens: seq<Token>, year: int, event: string): (r: LineResult)
    requires IsStream(dateTokens + [EndToken]) && IsStream(timeTokens + [EndToken])
    ensures r.Read? ==> r.entry.event == event && |r.entry.pairs| > 0
    ensures r.Read? ==> forall d <- r.entry.dates :: ValidDate(d) && d.year == year
  {
    match DatesFrom(dateTokens + [EndToken], 0, year)
    case Failed(f) => Rejected(ParseFailed(f))
    case Parsed(dates, _) =>
      match TimePairsFrom(timeTokens + [EndToken], 0)
      case Failed(f) => Rejected(ParseFailed(f))
      case Parsed(pairs, _) => Read(Entry(dates, pairs, event))
  }

  type Table = map<Date, map<TimePair, string>>

  /** `schedule[d]` of the `defaultdict`: an empty row for a date not yet seen. */
  function Row(m: Table, d: Date): map<TimePair, string> {
    if d in m then m[d] else map[]
  }

  /** The writes `schedule[d][start, end] = event` for one date and the pairs `ps`, in turn. */
  function Put(m: Table, d: Date, ps: seq<TimePair>, event: string): Table {
    if ps == [] then m
    else
      var before := Put(m, d, ps[..|ps| - 1], event);
      before[d := Row(before, d)[ps[|ps| - 1] := event]]
  }

  /** One date's writes: its row gains every pair, mapped to the event; nothing else moves. */
  lemma {:induction false} PutContents(m: Table, d: Date, ps: seq<TimePair>, event: string)
    requires ps != []
    ensures var n := Put(m, d, ps, event);
            (forall e :: e in n <==> e in m || e == d)
            && (forall e :: e in m && e != d ==> n[e] == m[e])
            && (forall p :: p in n[d] <==> p in Row(m, d) || p in ps)
            && (forall p :: p in ps ==> n[d][p] == event)
            && (forall p :: p in Row(m, d) && p !in ps ==> n[d][p] == Row(m, d)[p])
  {
    var init := ps[..|ps| - 1];
    if init != [] {
      PutContents(m, d, init, event);
    }
    assert ps == init + [ps[|ps| - 1]];
  }

  /** All the writes of a line, date by date. */
  function Store(m: Table, ds: seq<Date>, ps: seq<TimePair>, event: string): Table {
    if ds == [] then m else Put(Store(m, ds[..|ds| - 1], ps, event), ds[|ds| - 1], ps, event)
  }

  /** After the writes, every (date, pair) of the product maps to the event, and every
      other entry is what it was (absent stays absent). */
  lemma {:induction false} StoreContents(m: Table, ds: seq<Date>, ps: seq<TimePair>, event: string)
    requires ps != []
    ensures var n := Store(m, ds, ps, event);
            (forall d :: d in n <==> d in m || d in ds)
            && (forall d, p :: d in ds && p in ps ==> p in n[d] && n[d][p] == event)
            && (forall d :: d in m && d !in ds ==> n[d] == m[d])
            && (forall d, p :: d in ds && p !in ps ==> (p in n[d] <==> p in Row(m, d)))
            && (forall d, p :: d in ds && p !in ps && p in Row(m, d) ==> n[d][p] == Row(m, d)[p])
  {
    if ds != [] {
      var init := ds[..|ds| - 1];
      var last := ds[|ds| - 1];
      StoreContents(m, init, ps, event);
      PutContents(Store(m, init, ps, event), last, ps, event);
      assert ds == init + [last];
    }
  }

  /** A line read twice leaves the schedule as reading it once does; read again with another
      event text, the later text wins. */
  lemma LaterLineWins(m: Table, ds: seq<Date>, ps: seq<TimePair>, first: string, second: string)
    requires ps != []
    ensures Store(Store(m, ds, ps, first), ds, ps, second) == Store(m, ds, ps, second)
  {
    var once := Store(m, ds, ps, first);
    StoreContents(m, ds, ps, first);
    StoreContents(once, ds, ps, second);
    StoreContents(m, ds, ps, second);
    var a, b := Store(once, ds, ps, second), Store(m, ds, ps, second);
    forall d | d in a ensures a[d] == b[d] {
      if d in ds {
        forall p ensures p in a[d] <==> p in b[d] {
          if p !in ps {
            assert p in a[d] <==> p in Row(once, d);
          }
        }
        forall p | p in a[d] ensures a[d][p] == b[d][p] {
          if p !in ps {
            assert a[d][p] == Row(once, d)[p];
          }
        }
      }
    }
    assert a.Keys == b.Keys;
  }

  /** The program's `shared.schedule`: date to (start, end) to event. */
  class Schedule {
    var entries: Table

    constructor ()
      ensures entries == map[]
    {
      entries := map[];
    }

    /** `read_line`: on success every (date, pair) of the line is written; on any failure
        nothing is. */
    method ReadLine(line: string, year: int) returns (error: Option<LineError>)
      requires MinYear <= year <= MaxYear
      modifies this
      ensures match ParseLine(line, year)
              case Read(e) => error == None && entries == Store(old(entries), e.dates, e.pairs, e.event)
              case Rejected(why) => error == Some(why) && entries == old(entries)
    {
      var fields := SplitOn(line, '|');
      if |fields| != 3 {
        return Some(Unpack(|fields|));
      }
      var dateScan := Scan(DateRules, fields[0]);
      if !dateScan.Scanned? {
        return Some(ScanFailure(dateScan));
      }
      var timeScan := Scan(TimeRules, fields[1]);
      if !timeScan.Scanned? {
        return Some(ScanFailure(timeScan));
      }
      ScannedStream(DateRules, fields[0]);
      ScannedStream(TimeRules, fields[1]);
      var parsed := Parse(dateScan.tokens, timeScan.tokens, year, fields[2]);
      if parsed.Rejected? {
        return Some(parsed.error);
      }
      Enter(parsed.entry.dates, parsed.entry.pairs, parsed.entry.event);
      return None;
    }

    /** `DateParser(dates).parsed()` and `TimeParser(times).parsed()`, run to the end. */
    static method Parse(dateTokens: seq<Token>, timeTokens: seq<Token>, year: int, event: string) returns (r: LineResult)
      requires forall t <- dateTokens :: t.kind != END && WellShaped(t)
      requires forall t <- timeTokens :: t.kind != END && WellShaped(t)
      requires MinYear <= year <= MaxYear
      ensures IsStream(dateTokens + [EndToken]) && IsStream(timeTokens + [EndToken])
      ensures r == ParseColumns(dateTokens, timeTokens, year, event)
    {
      var dateParser := new DateParser(dateTokens, year);
      var timeParser := new TimeParser(timeTokens);
      var dates := dateParser.Dates();
      if dates.Err? {
        return Rejected(ParseFailed(dates.failure));
      }
      var pairs := timeParser.TimePairs();
      if pairs.Err? {
        return Rejected(ParseFailed(pairs.failure));
      }
      return Read(Entry(dates.value, pairs.value, event));
    }

    /** The loop `for date, time_pair in itertools.product(dates, times)`. */
    method Enter(ds: seq<Date>, ps: seq<TimePair>, event: string)
      modifies this
      ensures entries == Store(old(entries), ds, ps, event)
    {
      var i := 0;
      while i < |ds|
        invariant 0 <= i <= |ds|
        invariant entries == Store(old(entries), ds[..i], ps, event)
      {
        assert ds[..i + 1][..i] == ds[..i];
        EnterDate(ds[i], ps, event);
        i := i + 1;
      }
      assert ds[..i] == ds;
    }

    /** The writes for one date: `shared.schedule[date][start, end] = event` for each pair. */
    method EnterDate(d: Date, ps: seq<TimePair>, event: string)
      modifies this
      ensures entries == Put(old(entries), d, ps, event)
    {
      var j := 0;
      while j < |ps|
        invariant 0 <= j <= |ps|
        invariant entries == Put(old(entries), d, ps[..j], event)
      {
        assert ps[..j + 1][..j] == ps[..j];
        entries := entries[d := Row(entries, d)[ps[j] := event]];
        j := j + 1;
      }
      assert ps[..j] == ps;
    }
  }
}
