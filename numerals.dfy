/** Decimal text: Python's `str.isdigit`, `int` and `str` on non-negative numbers,
    and the zero-padded two-digit fields that `strftime` writes. Only ASCII digits are modelled. */
module Numerals {
  import opened Wrappers

  predicate IsDigit(c: char) {
    '0' <= c <= '9'
  }

  /** Python's `s.isdigit()`: non-empty and made of digits only. */
  predicate IsDecimal(s: string)
    ensures IsDecimal(s) <==> |s| > 0 && forall i :: 0 <= i < |s| ==> IsDigit(s[i])
  {
    |s| > 0 && AllDigits(s)
  }

  predicate AllDigits(s: string)
    ensures AllDigits(s) <==> forall i :: 0 <= i < |s| ==> IsDigit(s[i])
  {
    s == [] || (IsDigit(s[0]) && AllDigits(s[1..]))
  }

  function DigitValue(c: char): nat
    requires IsDigit(c)
  {
    c as int - '0' as int
  }

  function DigitChar(d: nat): (c: char)
    requires d < 10
    ensures IsDigit(c) && DigitValue(c) == d
  {
    (d + '0' as int) as char
  }

  /** The number that a string of digits denotes. */
  function DigitsValue(s: string): nat
    requires forall i :: 0 <= i < |s| ==> IsDigit(s[i])
  {
    if s == [] then 0 else DigitsValue(s[..|s| - 1]) * 10 + DigitValue(s[|s| - 1])
  }

  /** Python's `int(s)` on the digit strings the scanner hands it; `None` is its `ValueError`. */
  function IntOf(s: string): (r: Option<nat>)
    ensures r.Some? <==> IsDecimal(s)
    ensures r.Some? ==> r.value == DigitsValue(s)
  {
    if IsDecimal(s) then Some(DigitsValue(s)) else None
  }

  /** Python's `str(n)`: the shortest decimal numeral of `n`, which reads back as `n`. */
  function DecimalText(n: nat): (s: string)
    ensures IsDecimal(s) && DigitsValue(s) == n
    ensures |s| > 1 ==> s[0] != '0'
    ensures n < 10 ==> |s| == 1
    ensures 10 <= n < 100 ==> |s| == 2
  {
    if n < 10 then [DigitChar(n)]
    else
      var s := DecimalText(n / 10) + [DigitChar(n % 10)];
      assert s[..|s| - 1] == DecimalText(n / 10);
      s
  }

  /** `%02d`, as in `strftime("%I")` and `strftime("%M")`. */
  function Pad2(n: nat): (s: string)
    requires n < 100
    ensures |s| == 2 && IsDecimal(s) && DigitsValue(s) == n
  {
    var t := DecimalText(n);
    if n < 10 then
      var s := "0" + t;
      assert s[..1] == "0";
      s
    else t
  }

  /** Python's `s.lstrip(c)`. */
  function LeftStrip(s: string, c: char): (r: string)
    ensures |r| <= |s|
    ensures r == s[|s| - |r|..] && (r == [] || r[0] != c)
  {
    if s != [] && s[0] == c then LeftStrip(s[1..], c) else s
  }

  /** `lstrip` removes exactly the leading run of `c`: what is left is a suffix of `s` that
      does not start with `c`, and everything removed was `c`. */
  lemma {:induction false} LeftStripSpec(s: string, c: char)
    ensures var r := LeftStrip(s, c);
            r == s[|s| - |r|..] && (r == [] || r[0] != c)
            && forall i :: 0 <= i < |s| - |r| ==> s[i] == c
  {
    if s != [] && s[0] == c {
      LeftStripSpec(s[1..], c);
      var r := LeftStrip(s, c);
      assert s[1..][|s| - 1 - |r|..] == s[|s| - |r|..];
      forall i | 0 <= i < |s| - |r| ensures s[i] == c {
        if i > 0 {
          assert s[1..][i - 1] == s[i];
        }
      }
    }
  }
}
