/** Decimal rendering of non-negative integers, as a template literal such as
    `ZONE${n}` renders a JavaScript number that holds a whole value below 1e21
    (array lengths, indices and millisecond timestamps). */
module Decimal {

  predicate IsDigit(c: char) {
    '0' <= c <= '9'
  }

  function DigitChar(d: nat): (c: char)
    requires d < 10
    ensures IsDigit(c) && (c as int) - ('0' as int) == d
  {
    (('0' as int) + d) as char
  }

  function DigitValue(c: char): nat
    requires IsDigit(c)
  {
    (c as int) - ('0' as int)
  }

  /** A canonical decimal numeral: non-empty, digits only, and no leading
      zero unless it is "0" itself. */
  predicate IsNumeral(s: string) {
    && |s| >= 1
    && (forall i :: 0 <= i < |s| ==> IsDigit(s[i]))
    && (s[0] == '0' ==> s == "0")
  }

  /** The value of a string of digits, read most significant digit first. */
  function ParseDecimal(s: string): nat
    requires forall i :: 0 <= i < |s| ==> IsDigit(s[i])
    decreases |s|
  {
    if s == [] then 0
    else ParseDecimal(s[..|s| - 1]) * 10 + DigitValue(s[|s| - 1])
  }

  /** `String(n)`: the canonical numeral of `n`, which reads back as `n`. */
  function NatToString(n: nat): (s: string)
    ensures IsNumeral(s)
    ensures ParseDecimal(s) == n
    decreases n
  {
    if n < 10 then [DigitChar(n)]
    else
      var high := NatToString(n / 10);
      var s := high + [DigitChar(n % 10)];
      assert s[..|s| - 1] == high;
      s
  }

  /** Two numbers are rendered alike only when they are equal. */
  lemma NatToStringInjective(a: nat, b: nat)
    ensures NatToString(a) == NatToString(b) <==> a == b
  {
  }

  /** The other half of the round trip: every canonical numeral is the
      rendering of the number it denotes. */
  lemma {:induction false} NatToStringOfParse(s: string)
    requires IsNumeral(s)
    ensures NatToString(ParseDecimal(s)) == s
    decreases |s|
  {
    var n := ParseDecimal(s);
    if |s| == 1 {
      assert s[..|s| - 1] == [];
      assert ParseDecimal(s[..|s| - 1]) == 0;
      assert n == ParseDecimal(s[..|s| - 1]) * 10 + DigitValue(s[|s| - 1]);
      assert n == DigitValue(s[0]);
    } else {
      var high := s[..|s| - 1];
      assert high[0] == s[0];
      assert high[0] != '0';
      assert ParseDecimal(high) >= 1 by {
        LeadingDigitPositive(high);
      }
      NatToStringOfParse(high);
      var d := DigitValue(s[|s| - 1]);
      assert n == ParseDecimal(high) * 10 + d;
      assert n / 10 == ParseDecimal(high) && n % 10 == d;
      assert s == high + [DigitChar(d)];
    }
  }

  /** A digit string whose first digit is not '0' has a positive value. */
  lemma {:induction false} LeadingDigitPositive(s: string)
    requires |s| >= 1 && (forall i :: 0 <= i < |s| ==> IsDigit(s[i])) && s[0] != '0'
    ensures ParseDecimal(s) >= 1
    decreases |s|
  {
    if |s| > 1 {
      var high := s[..|s| - 1];
      assert high[0] == s[0];
      LeadingDigitPositive(high);
    } else {
      assert s[..0] == [];
    }
  }
}
