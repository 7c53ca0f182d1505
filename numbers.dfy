/** Numbers as the Python and Rust sources see them: decimal.Decimal values
    with their textual form, int() truncation, str() of integers, bytes. */
module Numbers {

  /** A byte, as in Python `bytes` and Soroban `BytesN`. */
  newtype byte = x: int | 0 <= x < 256

  /** The range of Rust's i128, the contract's amount type. */
  const I128Min: int := -0x8000_0000_0000_0000_0000_0000_0000_0000
  const I128Max: int := 0x7FFF_FFFF_FFFF_FFFF_FFFF_FFFF_FFFF_FFFF

  /** 10 raised to an integer power, exactly. */
  function Pow10(e: int): (r: real)
    ensures r > 0.0
    decreases if e >= 0 then e else -e
  {
    if e == 0 then 1.0
    else if e > 0 then 10.0 * Pow10(e - 1)
    else Pow10(e + 1) / 10.0
  }

  /** A finite decimal.Decimal: sign, coefficient and exponent. Python keeps
      the exponent it was written with, so Decimal("1.50") is (150, -2) and
      Decimal("1.5") is (15, -1): equal values, different texts. */
  datatype Decimal = Decimal(negative: bool, coefficient: nat, exponent: int) {
    function Value(): real {
      (if negative then -1.0 else 1.0) * (coefficient as real) * Pow10(exponent)
    }
  }

  function DigitChar(d: nat): (c: char)
    requires d < 10
    ensures '0' <= c <= '9'
  {
    (d + '0' as int) as char
  }

  /** The decimal digits of n, most significant first; "0" for zero. */
  function Digits(n: nat): (s: string)
    ensures |s| >= 1
    ensures forall i :: 0 <= i < |s| ==> '0' <= s[i] <= '9'
  {
    if n < 10 then [DigitChar(n)] else Digits(n / 10) + [DigitChar(n % 10)]
  }

  /** Appending a digit d to n appends its character to n's text. */
  lemma DigitsAppend(n: nat, d: nat)
    requires n >= 1 && d < 10
    ensures Digits(10 * n + d) == Digits(n) + [DigitChar(d)]
  {
    assert (10 * n + d) / 10 == n && (10 * n + d) % 10 == d;
  }

  function Zeros(n: nat): (s: string)
    ensures |s| == n
    ensures forall i :: 0 <= i < n ==> s[i] == '0'
  {
    if n == 0 then "" else Zeros(n - 1) + "0"
  }

  /** Python's str(int): optional minus sign, then the digits. */
  function IntText(i: int): string {
    if i < 0 then "-" + Digits(-i) else Digits(i)
  }

  /** Python's "%+d": the sign is always written. */
  function SignedIntText(i: int): string {
    if i < 0 then "-" + Digits(-i) else "+" + Digits(i)
  }

  /** Python's str(Decimal) for a finite value (Decimal.__str__ with eng=False
      and the default context, whose `capitals` is 1). Plain notation when the
      exponent is at most 0 and the adjusted exponent is at least -6;
      scientific notation otherwise. */
  function DecimalText(d: Decimal): string {
    var digits := Digits(d.coefficient);
    var leftdigits := d.exponent + |digits|;
    var dotplace := if d.exponent <= 0 && leftdigits > -6 then leftdigits else 1;
    var intpart :=
      if dotplace <= 0 then "0"
      else if dotplace >= |digits| then digits + Zeros(dotplace - |digits|)
      else digits[..dotplace];
    var fracpart :=
      if dotplace <= 0 then "." + Zeros(-dotplace) + digits
      else if dotplace >= |digits| then ""
      else "." + digits[dotplace..];
    var exp := if leftdigits == dotplace then "" else "E" + SignedIntText(leftdigits - dotplace);
    (if d.negative then "-" else "") + intpart + fracpart + exp
  }

  /** Python's int() on an exact value: truncation toward zero. */
  function Trunc(x: real): (r: int)
    ensures x >= 0.0 ==> r >= 0 && r as real <= x < r as real + 1.0
    ensures x < 0.0 ==> r <= 0 && r as real - 1.0 < x <= r as real
  {
    if x >= 0.0 then x.Floor else -((-x).Floor)
  }

  /** The scale of the on-chain minor unit: 10^7 stroops per unit. */
  const MinorUnitScale: real := 10000000.0

  /** Decimal("1.50") and Decimal("1.5") are the same number but print
      differently; the signing message uses the printed form. */
  lemma TrailingZeroKeepsText()
    ensures Decimal(false, 150, -2).Value() == Decimal(false, 15, -1).Value() == 1.5
    ensures DecimalText(Decimal(false, 150, -2)) == "1.50"
    ensures DecimalText(Decimal(false, 15, -1)) == "1.5"
  {
    assert Pow10(-1) == 0.1 by { assert Pow10(0) == 1.0; }
    assert Pow10(-2) == 0.01;
    assert Digits(1) == "1";
    assert Digits(15) == "15";
    assert Digits(150) == "150";
  }
}
