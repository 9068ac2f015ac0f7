/** Tokens as the scanner actions build them: a `(kind, value)` pair. */
module Tokens {
  import opened Calendar

  /** The kinds, named after the strings the program uses for them: 'MONTH', 'WEEKDAY',
      'DAY', 'TIME', the punctuation '-', '--', ',', ':', '.', and the sentinel 'END'. */
  datatype Kind = MONTH | WEEKDAY | DAY | TIME | DASH | DOUBLE_DASH | COMMA | COLON | DOT | END

  /** A token's value: a number, a time of day, or the empty string of punctuation and END. */
  datatype Value = Blank | Num(n: int) | At(time: Time)

  datatype Token = Token(kind: Kind, value: Value)

  const EndToken: Token := Token(END, Blank)

  predicate IsPunctuation(k: Kind) {
    k == DASH || k == DOUBLE_DASH || k == COMMA || k == COLON || k == DOT
  }

  /** The kind of a token fixes the shape and range of its value. */
  predicate WellShaped(t: Token) {
    match t.kind
    case MONTH => t.value.Num? && 1 <= t.value.n <= 12
    case WEEKDAY => t.value.Num? && 1 <= t.value.n <= 7
    case DAY => t.value.Num? && 0 <= t.value.n
    case TIME => t.value.At? && ValidTime(t.value.time)
    case _ => t.value == Blank
  }
}
