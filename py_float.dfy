/**
 * Python's `float()` on a `str`, as used for the sleep-duration answer:
 * surrounding whitespace, an optional sign, a decimal mantissa (`7`, `7.`,
 * `.5`, `7.5`) with an optional exponent (`e`/`E`, optional sign, digits),
 * or one of the case-insensitive words `inf`, `infinity`, `nan`.
 * Values are exact reals: the rounding to a 64-bit double is not modelled.
 */
module PyFloat {
  import opened Wrappers
  import opened PyText

  datatype Float = Finite(value: real) | Infinite(negative: bool) | NaN

  function Pow10(e: nat): (r: real)
    ensures r >= 1.0
  {
    if e == 0 then 1.0 else 10.0 * Pow10(e - 1)
  }

  /** A decimal mantissa: digits with at most one '.', at least one digit. */
  function ParseMantissa(m: string): (r: Option<real>)
    ensures r.Some? ==> r.value >= 0.0
  {
    var parts := Split(m, '.');
    if |parts| == 1 then
      if IsDigitString(parts[0]) then Some(DigitsValue(parts[0]) as real) else None
    else if |parts| == 2 && AllDigits(parts[0]) && AllDigits(parts[1]) && |parts[0]| + |parts[1]| > 0 then
      Some(DigitsValue(parts[0]) as real + DigitsValue(parts[1]) as real / Pow10(|parts[1]|))
    else None
  }

  /** An exponent: optional sign and at least one digit. */
  function ParseExponent(e: string): Option<int> {
    if |e| > 0 && (e[0] == '+' || e[0] == '-') then
      if IsDigitString(e[1..]) then
        Some(if e[0] == '-' then -(DigitsValue(e[1..]) as int) else DigitsValue(e[1..]))
      else None
    else if IsDigitString(e) then Some(DigitsValue(e))
    else None
  }

  function Scale(v: real, e: int): real {
    if e >= 0 then v * Pow10(e) else v / Pow10(-e)
  }

  /** An unsigned, lower-cased literal. */
  function ParseUnsigned(body: string): Option<Float> {
    if body == "inf" || body == "infinity" then Some(Infinite(false))
    else if body == "nan" then Some(NaN)
    else
      var parts := Split(body, 'e');
      if |parts| == 1 then
        match ParseMantissa(parts[0])
        case Some(v) => Some(Finite(v))
        case None => None
      else if |parts| == 2 then
        match (ParseMantissa(parts[0]), ParseExponent(parts[1]))
        case (Some(v), Some(e)) => Some(Finite(Scale(v, e)))
        case _ => None
      else None
  }

  function Negate(f: Float): Float {
    match f
    case Finite(v) => Finite(-v)
    case Infinite(n) => Infinite(!n)
    case NaN => NaN
  }

  /** `float(s)`; `None` where Python raises `ValueError`. */
  function ParseFloat(s: string): Option<Float> {
    var t := Lower(Strip(s));
    if |t| > 0 && (t[0] == '+' || t[0] == '-') then
      match ParseUnsigned(t[1..])
      case Some(f) => Some(if t[0] == '-' then Negate(f) else f)
      case None => None
    else ParseUnsigned(t)
  }

  lemma LowerDigits(s: string)
    requires AllDigits(s)
    ensures Lower(s) == s
  {
    forall i | 0 <= i < |s| ensures Lower(s)[i] == s[i] {
      LowerAt(s, i);
      assert IsAsciiDigit(s[i]);
    }
  }

  lemma ParseUnsignedOfDigits(s: string)
    requires IsDigitString(s)
    ensures ParseUnsigned(s) == Some(Finite(DigitsValue(s) as real))
  {
    assert '.' !in s && 'e' !in s;
    SplitNone(s, '.');
    SplitNone(s, 'e');
    assert ParseMantissa(s) == Some(DigitsValue(s) as real);
    assert s != "inf" && s != "infinity" && s != "nan" by {
      assert IsAsciiDigit(s[0]);
    }
  }

  /** A word of lower-case ASCII letters is read as it stands. */
  lemma ParseFloatOfWord(s: string)
    requires s != [] && forall i | 0 <= i < |s| :: 'a' <= s[i] <= 'z'
    ensures ParseFloat(s) == ParseUnsigned(s)
  {
    StripNoSpace(s);
    forall i | 0 <= i < |s| ensures Lower(s)[i] == s[i] {
      LowerAt(s, i);
    }
    assert Lower(Strip(s)) == s;
  }

  /** A plain decimal numeral reads as its own value. */
  lemma ParseFloatOfDigits(s: string)
    requires IsDigitString(s)
    ensures ParseFloat(s) == Some(Finite(DigitsValue(s) as real))
  {
    StripNoSpace(s);
    LowerDigits(s);
    var t := Lower(Strip(s));
    assert t == s;
    assert !(t[0] == '+' || t[0] == '-') by {
      assert IsAsciiDigit(s[0]);
    }
    ParseUnsignedOfDigits(s);
  }
}
