/** Decimal numerals, as used to length-prefix text keys. */
module Decimal {
  function Digit(d: nat): char
    requires d < 10
  {
    '0' + d as char
  }

  function Numeral(n: nat): (text: string)
    ensures |text| > 0 && forall i :: 0 <= i < |text| ==> '0' <= text[i] <= '9'
  {
    if n < 10 then [Digit(n)] else Numeral(n / 10) + [Digit(n % 10)]
  }

  function Value(text: string): nat {
    if text == [] then 0
    else
      var last := text[|text| - 1];
      10 * Value(text[..|text| - 1]) + (if '0' <= last <= '9' then (last - '0') as nat else 0)
  }

  lemma {:induction false} ValueOfNumeral(n: nat)
    ensures Value(Numeral(n)) == n
  {
    if n >= 10 {
      ValueOfNumeral(n / 10);
      assert Numeral(n)[..|Numeral(n)| - 1] == Numeral(n / 10);
    }
  }

  lemma {:induction false} NumeralLength(n: nat, digits: nat)
    requires n < Power(digits) && digits > 0
    ensures |Numeral(n)| <= digits
  {
    if n >= 10 {
      NumeralLength(n / 10, digits - 1);
    }
  }

  function Power(digits: nat): nat { if digits == 0 then 1 else 10 * Power(digits - 1) }

  /** A separator ends the digits before it. */
  lemma FirstSeparator(d: string, e: string, a: string, b: string)
    requires forall i :: 0 <= i < |d| ==> d[i] != ':'
    requires forall i :: 0 <= i < |e| ==> e[i] != ':'
    ensures d + ":" + a == e + ":" + b ==> d == e && a == b
  {
    var left, right := d + ":" + a, e + ":" + b;
    assert left[|d|] == ':' && right[|e|] == ':';
    assert forall i :: 0 <= i < |d| ==> left[i] == d[i];
    assert forall i :: 0 <= i < |e| ==> right[i] == e[i];
    assert left[..|d|] == d && right[..|e|] == e;
    assert left[|d| + 1..] == a && right[|e| + 1..] == b;
  }

  lemma NumeralPrefix(m: nat, n: nat, a: string, b: string)
    requires Numeral(m) + ":" + a == Numeral(n) + ":" + b
    ensures m == n && a == b
  {
    FirstSeparator(Numeral(m), Numeral(n), a, b);
    ValueOfNumeral(m);
    ValueOfNumeral(n);
  }
}
