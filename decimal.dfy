/// Decimal text of integers, as Go's `strconv.FormatInt`/`FormatUint` and
/// `%d` write it in base 10, and reading it back.
module Decimal {
  import opened Wrappers

  function DigitChar(d: nat): (c: char)
    requires d < 10
    ensures '0' <= c <= '9'
  {
    ('0' as int + d) as char
  }

  /// The decimal digits of `n`, most significant first, without leading zeros.
  function Digits(n: nat): (s: string)
    ensures |s| >= 1 && forall k :: 0 <= k < |s| ==> '0' <= s[k] <= '9'
  {
    if n < 10 then [DigitChar(n)] else Digits(n / 10) + [DigitChar(n % 10)]
  }

  /// The decimal text of `i`, with a leading `-` when negative.
  function IntToDecimal(i: int): string
  {
    if i < 0 then "-" + Digits(-i) else Digits(i)
  }

  /// Reading decimal text back: the reference the rendering is checked against.
  function DigitValue(c: char): Option<nat>
  {
    if '0' <= c <= '9' then Some(c as int - '0' as int) else None
  }

  function DigitsValue(s: string): Option<nat>
  {
    if s == [] then None
    else
      match DigitValue(s[|s| - 1])
      case None => None
      case Some(d) =>
        if |s| == 1 then Some(d)
        else
          match DigitsValue(s[..|s| - 1])
          case None => None
          case Some(h) => Some(10 * h + d)
  }

  function DecimalValue(s: string): Option<int>
  {
    if |s| > 0 && s[0] == '-' then
      match DigitsValue(s[1..])
      case None => None
      case Some(n) => Some(-(n as int))
    else
      match DigitsValue(s)
      case None => None
      case Some(n) => Some(n)
  }

  lemma {:induction false} DigitsRoundTrip(n: nat)
    ensures DigitsValue(Digits(n)) == Some(n)
    decreases n
  {
    var s := Digits(n);
    if n >= 10 {
      DigitsRoundTrip(n / 10);
      assert s[..|s| - 1] == Digits(n / 10);
      assert DigitValue(s[|s| - 1]) == Some(n % 10);
    }
  }

  /// The decimal text of an integer reads back as that integer.
  lemma DecimalRoundTrip(i: int)
    ensures DecimalValue(IntToDecimal(i)) == Some(i)
  {
    if i < 0 {
      var n: nat := -i;
      var s := IntToDecimal(i);
      DigitsRoundTrip(n);
      assert s == "-" + Digits(n);
      assert |s| > 0 && s[0] == '-';
      assert s[1..] == Digits(n);
      assert DigitsValue(s[1..]) == Some(n);
    } else {
      var s := Digits(i);
      DigitsRoundTrip(i);
      assert '0' <= s[0] <= '9';
    }
  }
}
