/**
 * Exact integer helpers shared by the rest of the model: the BigInt power
 * operator `**`, `BigInt.prototype.toString()` in base 10 and the decimal
 * parsing that the `BigInt(string)` constructor performs.
 */
module BigNum {

  /** `base ** exponent` on BigInt, for a non-negative exponent. */
  function Pow(base: int, exponent: nat): (r: int)
    ensures base >= 1 ==> r >= 1
    ensures base >= 2 && exponent >= 1 ==> r >= base
  {
    if exponent == 0 then 1 else base * Pow(base, exponent - 1)
  }

  /** Multiplying a positive number by at least 2 makes it strictly larger. */
  lemma MulGrows(x: int, p: int)
    requires x >= 2 && p >= 1
    ensures x * p > p
  {
    assert x * p - p == (x - 1) * p;
    assert (x - 1) * p >= 1 * p;
  }

  /** One more factor of a base of at least 2 makes the power strictly larger. */
  lemma PowStep(base: int, e: nat)
    requires base >= 2
    ensures Pow(base, e) < Pow(base, e + 1)
  {
    assert Pow(base, e + 1) == base * Pow(base, e);
    MulGrows(base, Pow(base, e));
  }

  /** A larger exponent gives a strictly larger power for any base of at least 2. */
  lemma {:induction false} PowStrictlyIncreasing(base: int, a: nat, b: nat)
    requires base >= 2 && a < b
    ensures Pow(base, a) < Pow(base, b)
    decreases b - a
  {
    PowStep(base, a);
    if a + 1 < b {
      PowStrictlyIncreasing(base, a + 1, b);
    }
  }

  predicate IsDigit(c: char) {
    '0' <= c <= '9'
  }

  predicate AllDigits(s: string) {
    forall i :: 0 <= i < |s| ==> IsDigit(s[i])
  }

  function DigitChar(d: int): (c: char)
    requires 0 <= d < 10
    ensures IsDigit(c)
  {
    ('0' as int + d) as char
  }

  function DigitValue(c: char): (d: int)
    requires IsDigit(c)
    ensures 0 <= d < 10 && DigitChar(d) == c
  {
    c as int - '0' as int
  }

  /** The base-10 digits of a natural number, most significant first, without leading zeros. */
  function NatDigits(n: nat): (s: string)
    ensures |s| >= 1 && AllDigits(s)
    ensures s[0] == '0' <==> n == 0
    decreases n
  {
    if n < 10 then [DigitChar(n)] else NatDigits(n / 10) + [DigitChar(n % 10)]
  }

  /** `BigInt.prototype.toString()`: an optional minus sign followed by the digits of |n|. */
  function DecimalString(n: int): (s: string)
    ensures |s| >= 1
  {
    if n < 0 then "-" + NatDigits(-n) else NatDigits(n)
  }

  /** The value of a string of decimal digits, read left to right (leading zeros allowed). */
  function ParseDigits(s: string): (n: nat)
    requires AllDigits(s)
  {
    if s == [] then 0 else ParseDigits(s[..|s| - 1]) * 10 + DigitValue(s[|s| - 1])
  }

  /** The strings the regular expression `-?\d+` matches in full (`\d` is the ASCII digits). */
  predicate IsIntegerLiteral(s: string) {
    || (|s| >= 1 && AllDigits(s))
    || (|s| >= 2 && s[0] == '-' && AllDigits(s[1..]))
  }

  /** The `BigInt(string)` constructor applied to an integer literal. */
  function ParseInteger(s: string): int
    requires IsIntegerLiteral(s)
  {
    if s[0] == '-' then 0 - ParseDigits(s[1..]) else ParseDigits(s)
  }

  /** Reading back the digits of n gives n. */
  lemma {:induction false} ParseNatDigits(n: nat)
    ensures ParseDigits(NatDigits(n)) == n
  {
    var s := NatDigits(n);
    if n < 10 {
      assert s[..|s| - 1] == [];
    } else {
      var prefix := NatDigits(n / 10);
      assert s[..|s| - 1] == prefix;
      ParseNatDigits(n / 10);
    }
  }

  /** `BigInt(n.toString()) == n` for every integer, negatives included. */
  lemma ParseDecimalString(n: int)
    ensures IsIntegerLiteral(DecimalString(n))
    ensures ParseInteger(DecimalString(n)) == n
  {
    var s := DecimalString(n);
    if n < 0 {
      assert s[1..] == NatDigits(-n);
      ParseNatDigits(-n);
    } else {
      ParseNatDigits(n);
    }
  }
}
