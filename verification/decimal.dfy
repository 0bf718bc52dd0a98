/** Decimal text of Java `int`s: `Integer.toString` / `String.valueOf`
    for writing TTLs and weights, `Integer.parseInt` for reading them. */
module Decimal {
  import opened Results
  import opened JavaStrings

  predicate IsDigit(c: char)
  {
    '0' <= c <= '9'
  }

  predicate AllDigits(s: string)
  {
    forall i :: 0 <= i < |s| ==> IsDigit(s[i])
  }

  function DigitValue(c: char): nat
    requires IsDigit(c)
  {
    c as int - '0' as int
  }

  function DigitChar(d: nat): (c: char)
    requires d < 10
    ensures IsDigit(c) && DigitValue(c) == d
  {
    (d + '0' as int) as char
  }

  /** The shortest decimal numeral of `n` (no leading zeros). */
  function NatToDecimal(n: nat): (s: string)
    ensures 0 < |s| && AllDigits(s)
    ensures |s| > 1 ==> s[0] != '0'
    decreases n
  {
    if n < 10 then [DigitChar(n)]
    else NatToDecimal(n / 10) + [DigitChar(n % 10)]
  }

  /** `Integer.toString(x)`: a minus sign for negative values. */
  function IntToDecimal(x: int): string
  {
    if x < 0 then "-" + NatToDecimal(-x) else NatToDecimal(x)
  }

  function DigitsValue(s: string): nat
    requires AllDigits(s)
  {
    if |s| == 0 then 0
    else DigitsValue(s[..|s| - 1]) * 10 + DigitValue(s[|s| - 1])
  }

  /** `Integer.parseInt(s)` restricted to ASCII digits: an optional `+`
      or `-`, then at least one of '0'..'9', with the value inside the
      `int` range; any other text is a `NumberFormatException`, here
      `None`. Java also accepts the other Unicode decimal digits (such as
      U+0660..U+0669); here those give `None`. */
  function ParseInt(s: string): Option<int32>
  {
    var signed := 0 < |s| && (s[0] == '-' || s[0] == '+');
    var body := if signed then s[1..] else s;
    if |body| == 0 || !AllDigits(body) then None
    else
      var v: int := if signed && s[0] == '-' then 0 - DigitsValue(body) as int else DigitsValue(body);
      if -0x8000_0000 <= v < 0x8000_0000 then Some(v) else None
  }

  lemma {:induction false} DigitsValueOfNat(n: nat)
    ensures DigitsValue(NatToDecimal(n)) == n
  {
    if n >= 10 {
      var s := NatToDecimal(n);
      assert s[..|s| - 1] == NatToDecimal(n / 10);
      DigitsValueOfNat(n / 10);
    }
  }

  lemma ParseNonNegative(x: int32)
    requires 0 <= x
    ensures ParseInt(IntToDecimal(x)) == Some(x)
  {
    var s := NatToDecimal(x);
    assert IsDigit(s[0]);
    DigitsValueOfNat(x);
  }

  lemma ParseNegative(x: int32)
    requires x < 0
    ensures ParseInt(IntToDecimal(x)) == Some(x)
  {
    var d := NatToDecimal(-(x as int));
    var s := "-" + d;
    assert s[0] == '-' && s[1..] == d;
    DigitsValueOfNat(-(x as int));
  }

  /** Reading back what `Integer.toString` wrote gives the same `int`. */
  lemma ParseIntOfDecimal(x: int32)
    ensures ParseInt(IntToDecimal(x)) == Some(x)
  {
    if x < 0 {
      ParseNegative(x);
    } else {
      ParseNonNegative(x);
    }
  }
}
