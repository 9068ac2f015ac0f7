/** The token cursor both grammars share (class `Parser`): it walks the scanned tokens
    followed by a single END token, and moves only through `expect`. */
module Cursor {
  import opened Wrappers
  import opened Tokens

  /** A token stream as a parser sees it: well-shaped tokens, then END once, last. */
  predicate IsStream(st: seq<Token>) {
    |st| > 0 && st[|st| - 1] == EndToken
    && forall i :: 0 <= i < |st| - 1 ==> st[i].kind != END && WellShaped(st[i])
  }

  /** `self.current = next(self.tokens)`: once END is current the iterator is exhausted
      and END stays current. */
  function Advance(st: seq<Token>, pos: nat): (p: nat)
    requires IsStream(st) && pos < |st|
    ensures p < |st|
    ensures st[pos].kind != END ==> p == pos + 1
    ensures st[pos].kind == END ==> p == pos
  {
    if pos + 1 < |st| then pos + 1 else pos
  }

  /** Why a parse stops: `ParserError((current, allowed_kinds))`; the `ValueError` of a
      date out of range; the `OverflowError` of stepping past 9999-12-31; or a loop that
      the program would run forever. */
  datatype Failure = ParseError(found: Token, allowed: seq<Kind>) | InvalidDate | DateOverflow | Diverges

  /** The result of a grammar rule read from a position: a value and the position after it. */
  datatype Parse<T> = Parsed(value: T, next: nat) | Failed(failure: Failure)

  datatype Outcome<T> = Ok(value: T) | Err(failure: Failure)

  /** The shapes `expect` answers in, depending on its `yesorno` and `necessary` flags. */
  datatype Reply = Raised(failure: Failure) | Flag(ok: bool) | Got(value: Value) | Pair(ok: bool, got: Option<Value>)

  /** Puts the items read so far in front of what the rest of the stream parses to. */
  function Prepend<T>(acc: seq<T>, r: Parse<seq<T>>): Parse<seq<T>> {
    match r
    case Parsed(rest, q) => Parsed(acc + rest, q)
    case Failed(f) => r
  }

  lemma PrependTwice<T>(a: seq<T>, b: seq<T>, r: Parse<seq<T>>)
    ensures Prepend(a, Prepend(b, r)) == Prepend(a + b, r)
  {
    if r.Parsed? {
      assert a + (b + r.value) == (a + b) + r.value;
    }
  }

  /** A parsing method's answer and final position are those its grammar function gives. */
  predicate Agrees<T(==)>(r: Outcome<T>, spec: Parse<T>, pos: nat) {
    match spec
    case Parsed(v, q) => r == Ok(v) && pos == q
    case Failed(f) => r == Err(f)
  }

  class Parser {
    /** The scanned tokens followed by END. */
    const stream: seq<Token>
    /** Where `current` is in `stream`. */
    var pos: nat

    ghost predicate Valid()
      reads this
    {
      IsStream(stream) && pos < |stream|
    }

    function Current(): Token
      reads this
      requires Valid()
    {
      stream[pos]
    }

    constructor (tokens: seq<Token>)
      requires forall t <- tokens :: t.kind != END && WellShaped(t)
      ensures Valid() && stream == tokens + [EndToken] && pos == 0
    {
      stream := tokens + [EndToken];
      pos := 0;
    }

    /** `expect(allowed_kinds, yesorno, necessary)`: on a current token of an allowed kind it
        advances and answers True, the value, or (True, value); otherwise it stays put and
        raises, answers False, or (False, None). */
    method ExpectWith(allowed: seq<Kind>, yesOrNo: bool, necessary: bool) returns (r: Reply)
      requires Valid()
      modifies this
      ensures Valid()
      ensures old(Current()).kind in allowed ==>
                pos == Advance(stream, old(pos))
                && r == (if yesOrNo then Flag(true)
                         else if necessary then Got(old(Current()).value)
                         else Pair(true, Some(old(Current()).value)))
      ensures old(Current()).kind !in allowed ==>
                pos == old(pos)
                && r == (if necessary then Raised(ParseError(old(Current()), allowed))
                         else if yesOrNo then Flag(false)
                         else Pair(false, None))
    {
      var t := stream[pos];
      if t.kind in allowed {
        if pos + 1 < |stream| {
          pos := pos + 1;
        }
        if yesOrNo {
          r := Flag(true);
        } else if necessary {
          r := Got(t.value);
        } else {
          r := Pair(true, Some(t.value));
        }
      } else {
        if necessary {
          r := Raised(ParseError(t, allowed));
        } else if yesOrNo {
          r := Flag(false);
        } else {
          r := Pair(false, None);
        }
      }
    }

    /** `expect(allowed_kinds)`: the value of an allowed token, or the `ParserError`. */
    method Expect(allowed: seq<Kind>) returns (r: Outcome<Value>)
      requires Valid()
      modifies this
      ensures Valid()
      ensures old(Current()).kind in allowed ==> pos == Advance(stream, old(pos)) && r == Ok(old(Current()).value)
      ensures old(Current()).kind !in allowed ==> pos == old(pos) && r == Err(ParseError(old(Current()), allowed))
    {
      var reply := ExpectWith(allowed, false, true);
      if reply.Got? {
        r := Ok(reply.value);
      } else {
        r := Err(reply.failure);
      }
    }

    /** `accept(allowed_kinds)`: (True, value) after advancing, or (False, None) in place. */
    method Accept(allowed: seq<Kind>) returns (ok: bool, v: Option<Value>)
      requires Valid()
      modifies this
      ensures Valid()
      ensures ok == (old(Current()).kind in allowed)
      ensures ok ==> pos == Advance(stream, old(pos)) && v == Some(old(Current()).value)
      ensures !ok ==> pos == old(pos) && v == None
    {
      var reply := ExpectWith(allowed, false, false);
      ok, v := reply.ok, reply.got;
    }

    /** `confirm(allowed_kinds)`: True after advancing; it keeps `necessary`, so a token
        of any other kind raises `ParserError`. */
    method Confirm(allowed: seq<Kind>) returns (r: Outcome<bool>)
      requires Valid()
      modifies this
      ensures Valid()
      ensures old(Current()).kind in allowed ==> pos == Advance(stream, old(pos)) && r == Ok(true)
      ensures old(Current()).kind !in allowed ==> pos == old(pos) && r == Err(ParseError(old(Current()), allowed))
    {
      var reply := ExpectWith(allowed, true, true);
      if reply.Flag? {
        r := Ok(reply.ok);
      } else {
        r := Err(reply.failure);
      }
    }

    /** `check(allowed_kinds)`: True after advancing, or False in place. */
    method Check(allowed: seq<Kind>) returns (ok: bool)
      requires Valid()
      modifies this
      ensures Valid()
      ensures ok == (old(Current()).kind in allowed)
      ensures ok ==> pos == Advance(stream, old(pos))
      ensures !ok ==> pos == old(pos)
    {
      var reply := ExpectWith(allowed, true, false);
      ok := reply.ok;
    }
  }
}
