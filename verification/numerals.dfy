/** Decimal text for 64-bit integers: Swift's `Int64(_: String)` parser (used
    by `IntegerLiteral`) and the `"\(value)"` rendering (used by
    `Integer.inspect()`), with the round trip between them. */
module Numerals {
  import opened Results

  const MinInt64: int := -0x8000_0000_0000_0000
  const MaxInt64: int := 0x7FFF_FFFF_FFFF_FFFF

  type Int64 = x: int | MinInt64 <= x <= MaxInt64

  predicate IsDigit(c: char) {
    '0' <= c <= '9'
  }

  predicate AllDigits(s: string) {
    forall i :: 0 <= i < |s| ==> IsDigit(s[i])
  }

  function DigitValue(c: char): nat
    requires IsDigit(c)
  {
    (c as int) - ('0' as int)
  }

  function DigitChar(d: nat): (c: char)
    requires d < 10
    ensures IsDigit(c) && DigitValue(c) == d
  {
    ('0' as int + d) as char
  }

  /** The value of a digit string read most significant digit first. */
  function DigitsValue(s: string): nat
    requires AllDigits(s)
  {
    if |s| == 0 then 0
    else DigitsValue(s[..|s| - 1]) * 10 + DigitValue(s[|s| - 1])
  }

  /** The shortest decimal spelling of a natural number. */
  function Digits(n: nat): (s: string)
    ensures |s| > 0 && AllDigits(s)
    ensures |s| > 1 ==> s[0] != '0'
  {
    if n < 10 then [DigitChar(n)] else Digits(n / 10) + [DigitChar(n % 10)]
  }

  /** `"\(value)"` for an integer: a minus sign for negatives, then digits. */
  function DecimalString(v: int): string {
    if v < 0 then "-" + Digits(-v) else Digits(v)
  }

  /** Swift's `Int64(text)`: an optional `+` or `-`, then at least one
      decimal digit and nothing else; `None` when the value does not fit. */
  function ParseInt64(s: string): (r: Option<Int64>)
    ensures r.Some? ==> |s| > 0 && (AllDigits(s) || ((s[0] == '+' || s[0] == '-') && |s| > 1 && AllDigits(s[1..])))
    ensures |s| > 0 && AllDigits(s) ==>
              r == (if DigitsValue(s) <= MaxInt64 then Some(DigitsValue(s)) else None)
    ensures |s| > 1 && s[0] == '+' && AllDigits(s[1..]) ==>
              r == (if DigitsValue(s[1..]) <= MaxInt64 then Some(DigitsValue(s[1..])) else None)
    ensures |s| > 1 && s[0] == '-' && AllDigits(s[1..]) ==>
              r == (if DigitsValue(s[1..]) <= -MinInt64 then Some(-(DigitsValue(s[1..]) as int)) else None)
  {
    if |s| == 0 then None
    else if s[0] == '-' || s[0] == '+' then
      var body := s[1..];
      if |body| == 0 || !AllDigits(body) then None
      else
        var magnitude: int := DigitsValue(body);
        var v: int := if s[0] == '-' then -magnitude else magnitude;
        if MinInt64 <= v <= MaxInt64 then Some(v) else None
    else if !AllDigits(s) then None
    else if DigitsValue(s) <= MaxInt64 then Some(DigitsValue(s))
    else None
  }

  /** Reading back the digits of `n` gives `n`. */
  lemma {:induction false} DigitsRoundTrip(n: nat)
    ensures DigitsValue(Digits(n)) == n
  {
    if n >= 10 {
      var s := Digits(n);
      assert s[..|s| - 1] == Digits(n / 10);
      DigitsRoundTrip(n / 10);
    }
  }

  /** Every 64-bit value is parsed back from its own decimal spelling. */
  lemma DecimalRoundTrip(v: Int64)
    ensures ParseInt64(DecimalString(v)) == Some(v)
  {
    if v < 0 {
      var m: nat := -(v as int);
      var s := DecimalString(v);
      assert s[1..] == Digits(m);
      DigitsRoundTrip(m);
    } else {
      DigitsRoundTrip(v);
    }
  }

  /** A leading zero does not change the value of a digit string. */
  lemma {:induction false} LeadingZeroValue(s: string)
    requires AllDigits(s)
    ensures AllDigits("0" + s) && DigitsValue("0" + s) == DigitsValue(s)
    decreases |s|
  {
    if |s| > 0 {
      var init := s[..|s| - 1];
      assert ("0" + s)[..|s|] == "0" + init;
      LeadingZeroValue(init);
    }
  }

  /** `Int64(text)` ignores leading zeros and an explicit `+`: "007" and
      "+7" read as 7, and a zero-padded run too large for 64 bits is still
      rejected. */
  lemma {:induction false} PaddingIgnored(s: string)
    requires |s| > 0 && AllDigits(s)
    ensures ParseInt64("0" + s) == ParseInt64(s)
    ensures ParseInt64("+" + s) == ParseInt64(s)
  {
    LeadingZeroValue(s);
    assert ("+" + s)[1..] == s;
  }
}
