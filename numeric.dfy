/**
 * The numeric side of the engine: which tokens JavaScript's `Number(...)` reads as a
 * finite number, and the 6-decimal normalisation `Number(x.toFixed(6))` (the source's `pInt`).
 * Numbers are exact reals; only plain decimal numerals are recognised.
 */
module Numeric {
  import opened Wrappers

  predicate IsDigit(c: char) { '0' <= c <= '9' }

  predicate AllDigits(s: string) { forall k :: 0 <= k < |s| ==> IsDigit(s[k]) }

  /** Value of a (possibly empty) run of decimal digits. */
  function DigitsValue(s: string): (n: nat)
    requires AllDigits(s)
    ensures s == [] ==> n == 0
    ensures n < Pow10(|s|)
    decreases |s|
  {
    if s == [] then 0
    else DigitsValue(s[..|s| - 1]) * 10 + ((s[|s| - 1] as int) - ('0' as int))
  }

  function Pow10(k: nat): (p: nat)
    ensures p >= 1
  {
    if k == 0 then 1 else 10 * Pow10(k - 1)
  }

  /** Index of the first '.' in `s`, if any. */
  function DotIndex(s: string): (r: Option<nat>)
    ensures r.Some? ==> r.value < |s| && s[r.value] == '.' && forall k :: 0 <= k < r.value ==> s[k] != '.'
    ensures r.None? ==> forall k :: 0 <= k < |s| ==> s[k] != '.'
  {
    if s == [] then None
    else if s[0] == '.' then Some(0)
    else match DotIndex(s[1..])
      case Some(k) => Some(k + 1)
      case None => None
  }

  /** An unsigned decimal numeral: `digits`, `digits.`, `.digits` or `digits.digits`. */
  function ParseUnsigned(s: string): (r: Option<real>)
    ensures r.Some? ==> r.value >= 0.0
  {
    match DotIndex(s)
    case None =>
      if |s| > 0 && AllDigits(s) then Some(DigitsValue(s) as real) else None
    case Some(i) =>
      var whole, frac := s[..i], s[i + 1..];
      if |s| > 1 && AllDigits(whole) && AllDigits(frac)
      then Some(DigitsValue(whole) as real + (DigitsValue(frac) as real) / (Pow10(|frac|) as real))
      else None
  }

  /**
   * `Number(s)` when it is finite, `None` when it is NaN. The empty token reads as 0, as
   * JavaScript's `Number("")` does; an optional sign precedes an unsigned decimal numeral.
   */
  function ParseNumber(s: string): (r: Option<real>)
    ensures s == "" ==> r == Some(0.0)
    ensures |s| > 0 && s[0] != '+' && s[0] != '-' && !IsDigit(s[0]) && s[0] != '.' ==> r.None?
  {
    if s == "" then Some(0.0)
    else if s[0] == '-' then
      match ParseUnsigned(s[1..])
      case Some(v) => Some(-v)
      case None => None
    else if s[0] == '+' then ParseUnsigned(s[1..])
    else ParseUnsigned(s)
  }

  /** A run of digits reads as its decimal value, and with a leading '-' as the negation of it. */
  lemma ParseDigits(s: string)
    requires |s| > 0 && AllDigits(s)
    ensures ParseNumber(s) == Some(DigitsValue(s) as real)
    ensures ParseNumber("-" + s) == Some(-(DigitsValue(s) as real))
  {
    PlainDigits(s);
    var t := "-" + s;
    assert t[0] == '-' && t[1..] == s;
    NegatedDigits(t);
  }

  lemma PlainDigits(s: string)
    requires |s| > 0 && AllDigits(s)
    ensures ParseNumber(s) == Some(DigitsValue(s) as real)
  {
    UnsignedDigits(s);
    assert IsDigit(s[0]);
  }

  lemma NegatedDigits(t: string)
    requires |t| > 1 && t[0] == '-' && AllDigits(t[1..])
    ensures ParseNumber(t) == Some(-(DigitsValue(t[1..]) as real))
  {
    UnsignedDigits(t[1..]);
  }

  /** A run of digits has no `.`, so it reads as its digit value. */
  lemma UnsignedDigits(s: string)
    requires |s| > 0 && AllDigits(s)
    ensures ParseUnsigned(s) == Some(DigitsValue(s) as real)
  {
    assert DotIndex(s).None?;
  }

  /** A token `Number(...)` reads as a finite number. */
  predicate IsNumeral(s: string) { ParseNumber(s).Some? }

  const Scale: real := 1000000.0

  /** Rounding to 6 decimal places, half away from zero (the source's `pInt`). */
  function Round6(x: real): real {
    if x >= 0.0 then ((x * Scale + 0.5).Floor as real) / Scale
    else -((((-x) * Scale + 0.5).Floor as real) / Scale)
  }

  /** `k` millionths. */
  function Millionths(k: int): real { (k as real) / Scale }

  /** A number with at most 6 decimals: an integer count of millionths. */
  ghost predicate SixDecimals(x: real) {
    exists k: int :: x == Millionths(k)
  }

  lemma RoundOfMillionths(k: int)
    ensures Round6(Millionths(k)) == Millionths(k)
  {
    var x := Millionths(k);
    if x >= 0.0 {
      assert x * Scale == k as real;
      assert (x * Scale + 0.5).Floor == k;
    } else {
      assert (-x) * Scale == (-k) as real;
      assert ((-x) * Scale + 0.5).Floor == -k;
    }
  }

  /** The result of rounding has at most 6 decimals, and lies within half a millionth of the input. */
  lemma Round6Properties(x: real)
    ensures SixDecimals(Round6(x))
    ensures -0.0000005 <= Round6(x) - x <= 0.0000005
  {
    if x >= 0.0 {
      var k := (x * Scale + 0.5).Floor;
      assert Round6(x) == Millionths(k);
      assert k as real <= x * Scale + 0.5 < k as real + 1.0;
    } else {
      var k := ((-x) * Scale + 0.5).Floor;
      assert Round6(x) == Millionths(-k);
      assert k as real <= (-x) * Scale + 0.5 < k as real + 1.0;
    }
  }

  /** Normalisation is stable: re-rounding a rounded number changes nothing. */
  lemma Round6Idempotent(x: real)
    ensures Round6(Round6(x)) == Round6(x)
  {
    Round6Properties(x);
    var k: int :| Round6(x) == Millionths(k);
    RoundOfMillionths(k);
  }

  /** Whole numbers pass through normalisation unchanged. */
  lemma Round6Integer(n: int)
    ensures Round6(n as real) == n as real
  {
    RoundOfMillionths(n * 1000000);
    assert Millionths(n * 1000000) == n as real;
  }
}
