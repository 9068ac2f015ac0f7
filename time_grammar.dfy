/** The time-column grammar: `TimeParser.time_pairs` reads `TIME ('-'|'--') TIME`
    pairs separated by commas. */
module TimeGrammar {
  import opened Calendar
  import opened Tokens
  import opened Cursor

  datatype TimePair = TimePair(start: Time, end: Time)

  const Dashes: seq<Kind> := [DASH, DOUBLE_DASH]

  /** The pair starting at `i`: TIME, a dash, TIME, the two times in source order. */
  predicate PairAt(st: seq<Token>, i: nat, p: TimePair) {
    i + 2 < |st| && st[i].kind == TIME && st[i + 1].kind in Dashes && st[i + 2].kind == TIME
    && st[i].value == At(p.start) && st[i + 2].value == At(p.end)
  }

  /** The shape of a successful parse of `ps` from `pos` to `q`: pair `i` sits at `pos + 4i`,
      a comma follows every pair but the last, and no comma follows the last one. */
  ghost predicate PairsShape(st: seq<Token>, pos: nat, ps: seq<TimePair>, q: nat) {
    |ps| > 0 && q == pos + 4 * |ps| - 1 && q < |st|
    && (forall i :: 0 <= i < |ps| ==> PairAt(st, pos + 4 * i, ps[i]))
    && (forall i :: 0 <= i < |ps| - 1 ==> st[pos + 4 * i + 3].kind == COMMA)
    && st[q].kind != COMMA
  }

  /** What `time_pairs` yields from position `pos`, and where it leaves `current`;
      the `ParserError` of the first token out of place otherwise. */
  function TimePairsFrom(st: seq<Token>, pos: nat): (r: Parse<seq<TimePair>>)
    requires IsStream(st) && pos < |st|
    ensures r.Parsed? ==> pos < r.next < |st| && |r.value| > 0
    decreases |st| - pos
  {
    if st[pos].kind != TIME then Failed(ParseError(st[pos], [TIME]))
    else if st[pos + 1].kind !in Dashes then Failed(ParseError(st[pos + 1], Dashes))
    else if st[pos + 2].kind != TIME then Failed(ParseError(st[pos + 2], [TIME]))
    else
      var pair := TimePair(st[pos].value.time, st[pos + 2].value.time);
      if st[pos + 3].kind != COMMA then Parsed([pair], pos + 3)
      else Prepend([pair], TimePairsFrom(st, pos + 4))
  }

  /** Once a pair has been read at `p`, a comma after it decides whether more pairs follow. */
  lemma PairRead(st: seq<Token>, p: nat, pair: TimePair)
    requires IsStream(st) && PairAt(st, p, pair)
    ensures p + 3 < |st|
    ensures TimePairsFrom(st, p) == if st[p + 3].kind != COMMA then Parsed([pair], p + 3)
                                    else Prepend([pair], TimePairsFrom(st, p + 4))
  {
  }

  /** The loop of `time_pairs` stops after a pair with no comma behind it, with what it read. */
  lemma PairsDone(st: seq<Token>, pos0: nat, here: nat, acc: seq<TimePair>, pair: TimePair)
    requires IsStream(st) && pos0 < |st| && PairAt(st, here, pair)
    requires Prepend(acc, TimePairsFrom(st, here)) == TimePairsFrom(st, pos0)
    requires here + 3 < |st| && st[here + 3].kind != COMMA
    ensures TimePairsFrom(st, pos0) == Parsed(acc + [pair], here + 3)
  {
    PairRead(st, here, pair);
  }

  /** After a pair and a comma the loop of `time_pairs` goes on from the next pair. */
  lemma PairsMore(st: seq<Token>, pos0: nat, here: nat, acc: seq<TimePair>, pair: TimePair)
    requires IsStream(st) && pos0 < |st| && PairAt(st, here, pair)
    requires Prepend(acc, TimePairsFrom(st, here)) == TimePairsFrom(st, pos0)
    requires here + 3 < |st| && st[here + 3].kind == COMMA
    ensures here + 4 < |st|
    ensures Prepend(acc + [pair], TimePairsFrom(st, here + 4)) == TimePairsFrom(st, pos0)
  {
    PairRead(st, here, pair);
    PrependTwice(acc, [pair], TimePairsFrom(st, here + 4));
  }

  /** A successful parse has exactly the grammar's shape, and every pair holds valid times. */
  lemma {:induction false} TimePairsShape(st: seq<Token>, pos: nat)
    requires IsStream(st) && pos < |st| && TimePairsFrom(st, pos).Parsed?
    ensures PairsShape(st, pos, TimePairsFrom(st, pos).value, TimePairsFrom(st, pos).next)
    ensures forall p <- TimePairsFrom(st, pos).value :: ValidTime(p.start) && ValidTime(p.end)
    decreases |st| - pos
  {
    var pair := TimePair(st[pos].value.time, st[pos + 2].value.time);
    assert PairAt(st, pos, pair);
    if st[pos + 3].kind == COMMA {
      TimePairsShape(st, pos + 4);
      var rest := TimePairsFrom(st, pos + 4);
      ShapeCons(st, pos, pair, rest.value, rest.next);
    }
  }

  /** A pair and a comma in front of a parse of that shape make a longer one. */
  lemma ShapeCons(st: seq<Token>, pos: nat, pair: TimePair, rest: seq<TimePair>, q: nat)
    requires PairAt(st, pos, pair) && PairsShape(st, pos + 4, rest, q) && st[pos + 3].kind == COMMA
    ensures PairsShape(st, pos, [pair] + rest, q)
  {
    var ps := [pair] + rest;
    forall i | 1 <= i < |ps| ensures PairAt(st, pos + 4 * i, ps[i]) {
      assert PairAt(st, pos + 4 + 4 * (i - 1), rest[i - 1]);
      assert pos + 4 * i == pos + 4 + 4 * (i - 1);
    }
    forall i | 1 <= i < |ps| - 1 ensures st[pos + 4 * i + 3].kind == COMMA {
      assert pos + 4 * i + 3 == pos + 4 + 4 * (i - 1) + 3;
    }
  }

  /** A failed parse reports a token that really is in the stream at or after `pos`. */
  lemma {:induction false} TimePairsFailure(st: seq<Token>, pos: nat)
    requires IsStream(st) && pos < |st| && TimePairsFrom(st, pos).Failed?
    ensures TimePairsFrom(st, pos).failure.ParseError?
    ensures TimePairsFrom(st, pos).failure.found in st[pos..]
    decreases |st| - pos
  {
    if st[pos].kind == TIME && st[pos + 1].kind in Dashes && st[pos + 2].kind == TIME && st[pos + 3].kind == COMMA {
      TimePairsFailure(st, pos + 4);
      assert st[pos + 4..] == st[pos..][4..];
    }
  }

  /** The converse: tokens of that shape parse to exactly those pairs, ending at `q`. */
  lemma {:induction false} ShapeParses(st: seq<Token>, pos: nat, ps: seq<TimePair>, q: nat)
    requires IsStream(st) && pos < |st| && PairsShape(st, pos, ps, q)
    ensures TimePairsFrom(st, pos) == Parsed(ps, q)
    decreases |ps|
  {
    assert PairAt(st, pos, ps[0]);
    if |ps| > 1 {
      ShapeTail(st, pos, ps, q);
      ShapeParses(st, pos + 4, ps[1..], q);
      assert TimePair(st[pos].value.time, st[pos + 2].value.time) == ps[0];
      assert [ps[0]] + ps[1..] == ps;
      assert Prepend([ps[0]], Parsed(ps[1..], q)) == Parsed(ps, q);
    } else {
      assert st[pos + 3].kind != COMMA;
      assert TimePair(st[pos].value.time, st[pos + 2].value.time) == ps[0];
      assert ps == [ps[0]];
    }
  }

  /** Behind the first pair of a longer parse come a comma and a parse of the rest. */
  lemma ShapeTail(st: seq<Token>, pos: nat, ps: seq<TimePair>, q: nat)
    requires PairsShape(st, pos, ps, q) && |ps| > 1
    ensures st[pos + 3].kind == COMMA && PairsShape(st, pos + 4, ps[1..], q)
  {
    assert st[pos + 4 * 0 + 3].kind == COMMA;
    forall i | 0 <= i < |ps| - 1 ensures PairAt(st, pos + 4 + 4 * i, ps[1..][i]) {
      assert PairAt(st, pos + 4 * (i + 1), ps[i + 1]);
      assert pos + 4 * (i + 1) == pos + 4 + 4 * i;
    }
    forall i | 0 <= i < |ps| - 2 ensures st[pos + 4 + 4 * i + 3].kind == COMMA {
      assert st[pos + 4 * (i + 1) + 3].kind == COMMA;
      assert pos + 4 * (i + 1) + 3 == pos + 4 + 4 * i + 3;
    }
  }

  /** Only the tokens up to where parsing stops matter: changing anything after `q` does
      not change the pairs. */
  lemma {:induction false} TimePairsLocal(st: seq<Token>, st': seq<Token>, pos: nat)
    requires IsStream(st) && IsStream(st') && pos < |st| && TimePairsFrom(st, pos).Parsed?
    requires var q := TimePairsFrom(st, pos).next; q < |st'| && st[..q + 1] == st'[..q + 1]
    ensures TimePairsFrom(st', pos) == TimePairsFrom(st, pos)
  {
    var r := TimePairsFrom(st, pos);
    TimePairsShape(st, pos);
    forall i | pos <= i <= r.next ensures st'[i] == st[i] {
      assert st'[..r.next + 1][i] == st[..r.next + 1][i];
    }
    ShapeParses(st', pos, r.value, r.next);
  }

  /** An empty time column is a `ParserError` at END expecting a time. */
  lemma EmptyTimes()
    ensures TimePairsFrom([EndToken], 0) == Failed(ParseError(EndToken, [TIME]))
  {
  }

  /** `9:00pm-9:30`: a pm time and a bare time form one pair, 21:00 to 9:30. */
  lemma EveningPair()
    ensures var st := [Token(TIME, At(Time(21, 0))), Token(DASH, Blank), Token(TIME, At(Time(9, 30))), EndToken];
            TimePairsFrom(st, 0) == Parsed([TimePair(Time(21, 0), Time(9, 30))], 3)
  {
  }

  /** `7:00pm 8:30pm`: the dash between two times is required; without it the second time
      is a `ParserError` expecting a dash. */
  lemma MissingDash()
    ensures var st := [Token(TIME, At(Time(19, 0))), Token(TIME, At(Time(20, 30))), EndToken];
            TimePairsFrom(st, 0) == Failed(ParseError(st[1], Dashes))
  {
  }

  /** `7:00pm-8:30pm, 9:00pm-10:00pm`: two pairs, in the order written. */
  lemma TwoPairs()
    ensures var st := [Token(TIME, At(Time(19, 0))), Token(DASH, Blank), Token(TIME, At(Time(20, 30))), Token(COMMA, Blank),
                       Token(TIME, At(Time(21, 0))), Token(DASH, Blank), Token(TIME, At(Time(22, 0))), EndToken];
            TimePairsFrom(st, 0) == Parsed([TimePair(Time(19, 0), Time(20, 30)), TimePair(Time(21, 0), Time(22, 0))], 7)
  {
    var st := [Token(TIME, At(Time(19, 0))), Token(DASH, Blank), Token(TIME, At(Time(20, 30))), Token(COMMA, Blank),
               Token(TIME, At(Time(21, 0))), Token(DASH, Blank), Token(TIME, At(Time(22, 0))), EndToken];
    var first, second := TimePair(Time(19, 0), Time(20, 30)), TimePair(Time(21, 0), Time(22, 0));
    PairRead(st, 4, second);
    PairRead(st, 0, first);
    assert [first] + [second] == [first, second];
  }

  /** `TimeParser`: a `Parser` over the scanned time column. */
  class TimeParser {
    const cursor: Parser

    constructor (tokens: seq<Token>)
      requires forall t <- tokens :: t.kind != END && WellShaped(t)
      ensures cursor.Valid() && cursor.stream == tokens + [EndToken] && cursor.pos == 0
      ensures fresh(cursor)
    {
      cursor := new Parser(tokens);
    }

    /** One `TIME ('-'|'--') TIME` group of `time_pairs`: the pair, three tokens on, or the
        `ParserError` of the first token out of place, which is also the whole parse's. */
    method ReadPair() returns (r: Outcome<TimePair>)
      requires cursor.Valid()
      modifies cursor
      ensures cursor.Valid()
      ensures r.Ok? ==> cursor.pos == old(cursor.pos) + 3 && PairAt(cursor.stream, old(cursor.pos), r.value)
      ensures r.Err? ==> TimePairsFrom(cursor.stream, old(cursor.pos)) == Failed(r.failure)
    {
      var start := cursor.Expect([TIME]);
      if start.Err? {
        return Err(start.failure);
      }
      var dash := cursor.Confirm(Dashes);
      if dash.Err? {
        return Err(dash.failure);
      }
      var end := cursor.Expect([TIME]);
      if end.Err? {
        return Err(end.failure);
      }
      return Ok(TimePair(start.value.time, end.value.time));
    }

    /** `time_pairs`: the pairs in order, or the first `ParserError`. */
    method TimePairs() returns (r: Outcome<seq<TimePair>>)
      requires cursor.Valid()
      modifies cursor
      ensures cursor.Valid()
      ensures Agrees(r, TimePairsFrom(cursor.stream, old(cursor.pos)), cursor.pos)
    {
      var acc: seq<TimePair> := [];
      ghost var st := cursor.stream;
      ghost var pos0 := cursor.pos;
      assert Prepend(acc, TimePairsFrom(st, pos0)) == TimePairsFrom(st, pos0) by {
        if TimePairsFrom(st, pos0).Parsed? {
          assert acc + TimePairsFrom(st, pos0).value == TimePairsFrom(st, pos0).value;
        }
      }
      while true
        invariant cursor.Valid() && cursor.stream == st
        invariant Prepend(acc, TimePairsFrom(st, cursor.pos)) == TimePairsFrom(st, pos0)
        decreases |st| - cursor.pos
      {
        ghost var here := cursor.pos;
        var pair := ReadPair();
        if pair.Err? {
          return Err(pair.failure);
        }
        var more := cursor.Check([COMMA]);
        if !more {
          PairsDone(st, pos0, here, acc, pair.value);
          return Ok(acc + [pair.value]);
        }
        PairsMore(st, pos0, here, acc, pair.value);
        acc := acc + [pair.value];
      }
    }
  }
}
