/** Numbers as they are printed, and that no two print alike. */
module Decimals {
  const DIGITS: string := "0123456789"

  function Decimal(n: nat): (text: string)
    ensures text != [] && forall i :: 0 <= i < |text| ==> '0' <= text[i] <= '9'
  {
    if n < 10 then [DIGITS[n]] else Decimal(n / 10) + [DIGITS[n % 10]]
  }

  lemma {:induction false} DecimalIsOneToOne(a: nat, b: nat)
    requires Decimal(a) == Decimal(b)
    ensures a == b
  {
    var x, y := Decimal(a), Decimal(b);
    assert x[|x| - 1] == DIGITS[a % 10] && y[|y| - 1] == DIGITS[b % 10];
    assert a % 10 == b % 10;
    if a >= 10 && b >= 10 {
      assert x[..|x| - 1] == Decimal(a / 10) && y[..|y| - 1] == Decimal(b / 10);
      DecimalIsOneToOne(a / 10, b / 10);
    }
  }

  predicate IsDigit(c: char) { '0' <= c <= '9' }

  function LeadingDigits(text: string): nat {
    if text == [] || !IsDigit(text[0]) then 0 else 1 + LeadingDigits(text[1..])
  }

  lemma {:induction false} LeadingOf(x: string, s: string)
    requires forall i :: 0 <= i < |x| ==> IsDigit(x[i])
    requires s != [] && !IsDigit(s[0])
    ensures LeadingDigits(x + s) == |x|
  {
    if x == [] {
      assert x + s == s;
    } else {
      LeadingOf(x[1..], s);
      assert (x + s)[1..] == x[1..] + s;
    }
  }

  /** A number followed by a text that begins with no digit is read back uniquely. */
  lemma NumberThenText(a: nat, b: nat, s: string, t: string)
    requires s != [] && t != [] && !IsDigit(s[0]) && !IsDigit(t[0])
    requires Decimal(a) + s == Decimal(b) + t
    ensures a == b && s == t
  {
    var x, y := Decimal(a), Decimal(b);
    LeadingOf(x, s);
    LeadingOf(y, t);
    assert x == (x + s)[..|x|] && y == (y + t)[..|x|];
    DecimalIsOneToOne(a, b);
    assert s == (x + s)[|x|..] && t == (y + t)[|x|..];
  }
}
