/**
 * The two value renderings the callback delegates to the JavaScript runtime:
 * `Date#toLocaleDateString('en-GB')` for the transaction date and the implicit
 * number-to-string conversion of the amount, each with a parser that inverts it.
 */
module JsFormat {
  import opened Wrappers
  import opened Decimal
  import opened Text

  type Day = d: nat | 1 <= d <= 31 witness 1
  type Month = m: nat | 1 <= m <= 12 witness 1

  /** A calendar date in the server's local time zone. */
  datatype CalendarDate = CalendarDate(year: nat, month: Month, day: Day)

  /** The en-GB short date: two-digit day, two-digit month, then the year, slash-separated. */
  function FormatDate(d: CalendarDate): (s: string)
    ensures |s| >= 7 && s[2] == '/' && s[5] == '/'
    ensures forall i :: 0 <= i < |s| && i != 2 && i != 5 ==> IsDigit(s[i])
  {
    Pad2(d.day) + "/" + Pad2(d.month) + "/" + FromNat(d.year)
  }

  /** Reads a `DD/MM/YYYY` text back into a date; `None` for anything else. */
  function ParseDate(s: string): Option<CalendarDate>
  {
    var fields := Split(s, '/');
    if |fields| == 3 && |fields[0]| == 2 && |fields[1]| == 2 then
      match (ParseNat(fields[0]), ParseNat(fields[1]), ParseNat(fields[2]))
      case (Some(day), Some(month), Some(year)) =>
        if 1 <= day <= 31 && 1 <= month <= 12 then Some(CalendarDate(year, month, day)) else None
      case _ => None
    else None
  }

  lemma FormatDateParts(d: CalendarDate)
    ensures forall k :: 0 <= k < 3 ==> '/' !in [Pad2(d.day), Pad2(d.month), FromNat(d.year)][k]
  {
    var parts := [Pad2(d.day), Pad2(d.month), FromNat(d.year)];
    forall k | 0 <= k < 3 ensures '/' !in parts[k] {
      assert AllDigits(parts[k]);
    }
  }

  /** A rendered date always reads back as the same date. */
  lemma ParseFormatDate(d: CalendarDate)
    ensures ParseDate(FormatDate(d)) == Some(d)
  {
    var parts := [Pad2(d.day), Pad2(d.month), FromNat(d.year)];
    FormatDateParts(d);
    Join3(Pad2(d.day), Pad2(d.month), FromNat(d.year), '/');
    assert FormatDate(d) == Join(parts, '/');
    SplitJoin(parts, '/');
    ParseFromNat(d.year);
  }

  /**
   * How JavaScript prints an amount held in hundredths (minor units): the whole
   * part, then the fraction without trailing zeros, and "-" for a negative value.
   * Zero prints as "0", also when it came from negating zero.
   */
  function RenderAmount(cents: int): string
  {
    if cents < 0 then "-" + RenderMagnitude(-cents) else RenderMagnitude(cents)
  }

  function FractionDigits(frac: nat): (s: string)
    requires 0 < frac < 100
    ensures 1 <= |s| <= 2 && AllDigits(s)
  {
    if frac % 10 == 0 then [DigitChar(frac / 10)] else Pad2(frac)
  }

  function RenderMagnitude(cents: nat): (s: string)
    ensures |s| >= 1 && IsDigit(s[0])
  {
    var whole, frac := cents / 100, cents % 100;
    if frac == 0 then FromNat(whole)
    else FromNat(whole) + "." + FractionDigits(frac)
  }

  /** Reads a possibly negative decimal with at most two fraction digits into hundredths. */
  function ParseAmount(s: string): Option<int>
  {
    if |s| > 0 && s[0] == '-' then
      match ParseMagnitude(s[1..])
      case Some(m) => Some(-(m as int))
      case None => None
    else ParseMagnitude(s)
  }

  function ParseMagnitude(s: string): Option<nat>
  {
    var parts := Split(s, '.');
    if |parts| == 1 then
      match ParseNat(parts[0])
      case Some(w) => Some(w * 100)
      case None => None
    else if |parts| == 2 && 1 <= |parts[1]| <= 2 then
      match (ParseNat(parts[0]), ParseNat(parts[1]))
      case (Some(w), Some(f)) => Some(w * 100 + (if |parts[1]| == 1 then f * 10 else f))
      case _ => None
    else None
  }

  lemma {:induction false} ParseRenderMagnitude(cents: nat)
    ensures ParseMagnitude(RenderMagnitude(cents)) == Some(cents)
  {
    var whole, frac := cents / 100, cents % 100;
    ParseFromNat(whole);
    if frac == 0 {
      SplitJoin([FromNat(whole)], '.');
    } else {
      var f := FractionDigits(frac);
      assert FromNat(whole) + "." + f == Join([FromNat(whole), f], '.');
      assert AllDigits(FromNat(whole)) && AllDigits(f);
      assert '.' !in FromNat(whole) && '.' !in f;
      SplitJoin([FromNat(whole), f], '.');
      if frac % 10 == 0 {
        assert f[..0] == [];
        assert ToNat(f) == frac / 10;
      }
    }
  }

  lemma ParseNegative(m: string, v: nat)
    requires ParseMagnitude(m) == Some(v)
    ensures ParseAmount("-" + m) == Some(-(v as int))
  {
    assert ("-" + m)[1..] == m;
  }

  lemma ParseNonNegative(m: string, v: nat)
    requires |m| >= 1 && IsDigit(m[0])
    requires ParseMagnitude(m) == Some(v)
    ensures ParseAmount(m) == Some(v)
  {
  }

  /** A rendered amount always reads back as the same amount. */
  lemma ParseRenderAmount(cents: int)
    ensures ParseAmount(RenderAmount(cents)) == Some(cents)
  {
    var magnitude: nat := if cents < 0 then -cents else cents;
    var m := RenderMagnitude(magnitude);
    ParseRenderMagnitude(magnitude);
    if cents < 0 {
      assert RenderAmount(cents) == "-" + m;
      ParseNegative(m, magnitude);
    } else {
      assert RenderAmount(cents) == m;
      ParseNonNegative(m, magnitude);
    }
  }

  /** A rendered amount is a numeral: digits, at most one point, and a leading "-" exactly when negative. */
  lemma RenderAmountShape(cents: int)
    ensures var s := RenderAmount(cents);
      |s| >= 1 && (s[0] == '-' <==> cents < 0) &&
      forall i :: 0 <= i < |s| ==> IsDigit(s[i]) || s[i] == '.' || s[i] == '-'
  {
  }
}
