/**
 * The two Java text conversions the one-to-many listener relies on:
 * `Integer.parseInt` (for the level column) and `Long.toString` (for the
 * lookup keys), on ASCII decimal text.
 */
module JavaNumbers {
  import opened Wrappers

  const IntMin: int := -0x8000_0000
  const IntMax: int := 0x7FFF_FFFF

  predicate IsDigit(c: char) {
    '0' <= c <= '9'
  }

  predicate AllDigits(s: string) {
    forall i :: 0 <= i < |s| ==> IsDigit(s[i])
  }

  function DigitChar(d: nat): (c: char)
    requires d < 10
    ensures IsDigit(c)
  {
    (d + '0' as int) as char
  }

  /** The value of a run of decimal digits, most significant first. */
  function DigitsValue(s: string): nat
    requires AllDigits(s)
  {
    if s == [] then 0
    else DigitsValue(s[..|s| - 1]) * 10 + (s[|s| - 1] as int - '0' as int)
  }

  /**
   * Integer.parseInt's grammar without its range check: an optional `-` or
   * `+`, then at least one decimal digit, and nothing else.
   */
  function ParseDecimal(s: string): (r: Option<int>)
    ensures r.Some? ==> |s| > 0
    ensures |s| > 0 && AllDigits(s) ==> r == Some(DigitsValue(s))
  {
    if |s| == 0 then None
    else if s[0] == '-' || s[0] == '+' then
      var digits := s[1..];
      if |digits| > 0 && AllDigits(digits) then
        var magnitude: int := DigitsValue(digits);
        Some(if s[0] == '-' then -magnitude else magnitude)
      else None
    else if AllDigits(s) then Some(DigitsValue(s))
    else None
  }

  /** Integer.parseInt: None is the NumberFormatException, raised also for values outside 32 bits. */
  function ParseInt(s: string): (r: Option<int>)
    ensures r.Some? <==> ParseDecimal(s).Some? && IntMin <= ParseDecimal(s).value <= IntMax
    ensures r.Some? ==> r == ParseDecimal(s)
  {
    match ParseDecimal(s)
    case Some(v) => if IntMin <= v <= IntMax then Some(v) else None
    case None => None
  }

  /** The shortest decimal rendering of a natural number. */
  function Decimal(n: nat): (r: string)
    ensures |r| > 0 && AllDigits(r)
    ensures n >= 10 ==> r[0] != '0'
  {
    if n < 10 then [DigitChar(n)] else Decimal(n / 10) + [DigitChar(n % 10)]
  }

  /** Long.toString: a `-` for negative values, then the decimal digits. */
  function IdString(v: int): (r: string)
    ensures |r| > 0
    ensures v >= 0 <==> r[0] != '-'
  {
    if v < 0 then "-" + Decimal(-v) else Decimal(v)
  }

  /** Reading back the digits of a rendering gives the number. */
  lemma {:induction false} DecimalValue(n: nat)
    ensures DigitsValue(Decimal(n)) == n
  {
    if n >= 10 {
      var s := Decimal(n);
      assert s[..|s| - 1] == Decimal(n / 10);
      DecimalValue(n / 10);
    }
  }

  /** Parsing what Long.toString rendered gives back the value. */
  lemma ParseIdString(v: int)
    ensures ParseDecimal(IdString(v)) == Some(v)
  {
    if v < 0 {
      var s := IdString(v);
      assert s[1..] == Decimal(-v);
      DecimalValue(-v);
    } else {
      DecimalValue(v);
    }
  }

  /** Distinct ids render to distinct keys. */
  lemma IdStringInjective(a: int, b: int)
    ensures IdString(a) == IdString(b) ==> a == b
  {
    ParseIdString(a);
    ParseIdString(b);
  }

  /**
   * Integer.parseInt accepts the rendering of a Long exactly when the value
   * fits in 32 bits, and then gives the value back; a wider id is a
   * NumberFormatException.
   */
  lemma ParseIntIdString(v: int)
    ensures ParseInt(IdString(v)).Some? <==> IntMin <= v <= IntMax
    ensures IntMin <= v <= IntMax ==> ParseInt(IdString(v)) == Some(v)
  {
    ParseIdString(v);
  }
}
