/** Decimal digit strings, as JavaScript writes non-negative integers. */
module Decimal {
  import opened Wrappers

  predicate IsDigit(c: char) { '0' <= c <= '9' }

  predicate AllDigits(s: string) { forall i :: 0 <= i < |s| ==> IsDigit(s[i]) }

  function DigitValue(c: char): (d: nat)
    requires IsDigit(c)
    ensures d < 10
  {
    c as int - '0' as int
  }

  function DigitChar(d: nat): (c: char)
    requires d < 10
    ensures IsDigit(c) && DigitValue(c) == d
  {
    ('0' as int + d) as char
  }

  /** The shortest decimal numeral of `n`: no leading zero except for 0 itself. */
  function FromNat(n: nat): (s: string)
    ensures |s| >= 1 && AllDigits(s)
    ensures s[0] == '0' <==> n == 0
  {
    if n < 10 then [DigitChar(n)]
    else FromNat(n / 10) + [DigitChar(n % 10)]
  }

  /** The value of a digit string, most significant digit first. */
  function ToNat(s: string): nat
    requires AllDigits(s)
  {
    if s == [] then 0
    else ToNat(s[..|s| - 1]) * 10 + DigitValue(s[|s| - 1])
  }

  /** A non-empty digit string read as a number; anything else is not a numeral. */
  function ParseNat(s: string): (r: Option<nat>)
    ensures r.Some? <==> s != [] && AllDigits(s)
  {
    if s != [] && AllDigits(s) then Some(ToNat(s)) else None
  }

  /** Two digits with a leading zero, as a day or month in a date. */
  function Pad2(n: nat): (s: string)
    requires n < 100
    ensures |s| == 2 && AllDigits(s) && ToNat(s) == n
  {
    var s := [DigitChar(n / 10), DigitChar(n % 10)];
    assert s[..1] == [DigitChar(n / 10)] && s[..1][..0] == [];
    assert ToNat(s[..1]) == n / 10;
    s
  }

  /** Reading back what `FromNat` wrote gives the number. */
  lemma {:induction false} ToNatFromNat(n: nat)
    ensures ToNat(FromNat(n)) == n
  {
    if n >= 10 {
      var s := FromNat(n);
      assert s[..|s| - 1] == FromNat(n / 10);
      ToNatFromNat(n / 10);
    }
  }

  lemma ParseFromNat(n: nat)
    ensures ParseNat(FromNat(n)) == Some(n)
  {
    ToNatFromNat(n);
  }
}
